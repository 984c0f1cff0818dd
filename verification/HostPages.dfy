/** Guest memory under a second stage that grows: what walks find in it does not depend on the accessed and
    dirty bits that earlier walks set, and mapping one more guest page to a free page changes only that page. */
module HostPages {
  import opened Bits
  import opened Common
  import opened PageTables
  import opened SecondStage
  import opened Translate
  import opened AdUpdates
  import opened Superpages
  import T = TableBuilder
  import TableTools

  // ---------------------------------------------------------------- walks one after another

  predicate AtLeaf(sp: Space, gpa: nat, m: Store, s: Slot) {
    var r := GReach(sp, gpa, m); r.GLeaf? && sp.gmode.Paged? && s == Slot(r.addr, sp.gmode.format.PteSize())
  }

  ghost predicate Markable(sp: Space, m: Store, s: Slot) {
    sp.gade && StoreStatus(m, s.addr).Okay? && exists gpa :: AtLeaf(sp, gpa, m, s)
  }

  /** `n` is `m` after some second-stage walks: bits are set in leaves where they can be. */
  ghost predicate Marked(sp: Space, m: Store, n: Store) {
    AdExtends(m, n) && forall s :: Fetch(n, s) != Fetch(m, s) ==> Markable(sp, m, s)
  }

  predicate SameOutcome(g: GResult, h: GResult) {
    if g.GErr? then h == g else h.GOk? && h == g.(pte := h.pte) && SameButAd(g.pte, h.pte)
  }

  lemma {:induction false} StopsAlike(sp: Space, vpn: seq<nat>, i: nat, a: nat, m: Store, n: Store)
    requires sp.gmode.Paged? && i < |vpn| && Similar(m, n)
    ensures var r := GReachFrom(sp, vpn, i, a, m); r.GStop? ==> GReachFrom(sp, vpn, i, a, n) == r
  {
    hide Fetch;
    var s := EntrySlot(sp.gmode.format, vpn, i, a);
    assert SimilarWord(Fetch(m, s), Fetch(n, s));
    if !IsLeaf(Fetch(m, s)) && i > 0 { StopsAlike(sp, vpn, i - 1, Fetch(m, s).PPN * PAGE_SIZE, m, n); }
  }

  lemma ReachAlike(sp: Space, gpa: nat, m: Store, n: Store)
    requires AdExtends(m, n)
    ensures var (r, q) := (GReach(sp, gpa, m), GReach(sp, gpa, n));
            if r.GLeaf? then sp.gmode.Paged? && q == r.(pte := Fetch(n, Slot(r.addr, sp.gmode.format.PteSize()))) && AdStep(r.pte, q.pte)
            else q == r
  {
    ExtendsIsSimilar(m, n);
    GReachSimilar(sp, gpa, m, n);
    GLeafInMemory(sp, gpa, m);
    var r := GReach(sp, gpa, m);
    if r.GLeaf? {
      var s := Slot(r.addr, sp.gmode.format.PteSize());
      assert AdStep(Fetch(m, s), Fetch(n, s));
    } else if r.GStop? && GpaFits(sp, gpa) {
      var f := sp.gmode.format;
      StopsAlike(sp, Indices(f, f.RootWidening(), gpa), f.Levels() - 1, sp.gppn * PAGE_SIZE, m, n);
    }
  }

  /** What a walk finds is the same after other walks. */
  lemma WalkIsStatic(sp: Space, acc: Access, gpa: nat, m: Store, n: Store)
    requires Marked(sp, m, n)
    ensures SameOutcome(GWalk(sp, acc, gpa, m).0, GWalk(sp, acc, gpa, n).0)
    ensures Marked(sp, m, GWalk(sp, acc, gpa, n).1)
  {
    var r := GReach(sp, gpa, m);
    ReachAlike(sp, gpa, m, n);
    GLeafInMemory(sp, gpa, m);
    GLeafInMemory(sp, gpa, n);
    if r.GLeaf? { assert AtLeaf(sp, gpa, m, Slot(r.addr, sp.gmode.format.PteSize())); }
    MarkedMore(sp, acc, gpa, m, n);
    SameAtLeaf(sp, acc, gpa, m, n);
  }

  lemma SameAtLeaf(sp: Space, acc: Access, gpa: nat, m: Store, n: Store)
    requires Marked(sp, m, n)
    requires var r := GReach(sp, gpa, m);
             if r.GLeaf? then
               && sp.gmode.Paged? && Fetch(m, Slot(r.addr, sp.gmode.format.PteSize())) == r.pte
               && GReach(sp, gpa, n) == r.(pte := Fetch(n, Slot(r.addr, sp.gmode.format.PteSize())))
               && AdStep(r.pte, GReach(sp, gpa, n).pte)
             else GReach(sp, gpa, n) == r
    ensures SameOutcome(GWalk(sp, acc, gpa, m).0, GWalk(sp, acc, gpa, n).0)
  {
    hide GReach, Fetch, AdExtends, GFinish;
    AdFaults(m, n);
    GLevelBound(sp, gpa, m);
    var r := GReach(sp, gpa, m);
    if r.GLeaf? { FinishAlike(sp, acc, gpa, r, GReach(sp, gpa, n).pte, m, n); } else { FinishStop(sp, acc, gpa, r, m, n); }
  }

  /** A leaf that differs only in bits that other walks could set is as good. */
  lemma FinishAlike(sp: Space, acc: Access, gpa: nat, r: GReached, q: Pte, m: Store, n: Store)
    requires r.GLeaf? && sp.gmode.Paged? && r.level < sp.gmode.format.Levels() && SameFaults(m, n) && AdStep(r.pte, q)
    requires q != r.pte ==> sp.gade && StoreStatus(m, r.addr).Okay?
    ensures SameOutcome(GFinish(sp, acc, gpa, r, m).0, GFinish(sp, acc, gpa, r.(pte := q), n).0)
  {
    hide GTranslated, WellAligned, GPermits, GSettled, SetAd, Put;
    if q != r.pte {
      ChecksAlike(acc, sp.gmode.format, r.level, r.pte, q);
      TranslatedAlike(sp, gpa, r, q);
    }
  }

  lemma TranslatedAlike(sp: Space, gpa: nat, r: GReached, q: Pte)
    requires r.GLeaf? && sp.gmode.Paged? && AdStep(r.pte, q)
    ensures SameOutcome(GTranslated(sp, gpa, r), GTranslated(sp, gpa, r.(pte := q)))
  {
    hide Splice;
  }

  lemma FinishStop(sp: Space, acc: Access, gpa: nat, r: GReached, m: Store, n: Store)
    requires !r.GLeaf?
    ensures GFinish(sp, acc, gpa, r, m).0 == GFinish(sp, acc, gpa, r, n).0
  {
  }

  lemma ChecksAlike(acc: Access, f: Format, i: nat, p: Pte, q: Pte)
    requires AdStep(p, q)
    ensures (i < f.Levels() ==> WellAligned(f, i, p) == WellAligned(f, i, q)) && GPermits(acc, p) == GPermits(acc, q)
  {
    hide Low;
  }

  lemma AdFaults(m: Store, n: Store)
    requires AdExtends(m, n)
    ensures SameFaults(m, n)
  {
  }

  lemma MarkedMore(sp: Space, acc: Access, gpa: nat, m: Store, n: Store)
    requires Marked(sp, m, n)
    ensures Marked(sp, m, GWalk(sp, acc, gpa, n).1)
  {
    var o := GWalk(sp, acc, gpa, n).1;
    GWalkExtends(sp, acc, gpa, n);
    AdTransitive(m, n, o);
    ReachAlike(sp, gpa, m, n);
    GLeafInMemory(sp, gpa, n);
    hide GReach, Splice, AdExtends;
    AdFaults(m, n);
    var r := GReach(sp, gpa, m);
    if r.GLeaf? { assert AtLeaf(sp, gpa, m, Slot(r.addr, sp.gmode.format.PteSize())); }
  }

  // ---------------------------------------------------------------- a page mapped by a plain leaf

  /** Where the second stage puts a guest address, if it does. */
  function Host(sp: Space, acc: Access, gpa: nat, m: Store): Option<nat> {
    var g := GWalk(sp, acc, gpa, m).0; if g.GOk? then Some(g.pa) else None
  }

  /** The walk of the guest page succeeds on a leaf without NAPOT coding. */
  predicate Plain(sp: Space, acc: Access, page: nat, m: Store) {
    var g := GWalk(sp, acc, page * PAGE_SIZE, m).0; sp.gmode.Paged? && g.GOk? && !g.pte.N
  }

  lemma PageWithin(sp: Space, page: nat, gpa: nat)
    requires ValidSpace(sp) && sp.gmode.Paged? && InPage(gpa, page)
    ensures GpaFits(sp, gpa) <==> GpaFits(sp, page * PAGE_SIZE)
  {
  }

  lemma OnPage(gpa: nat, page: nat)
    ensures SameBlock(page * PAGE_SIZE, gpa, 12) <==> InPage(gpa, page)
    ensures InPage(gpa, page) ==> Low(gpa, 12) == gpa - page * PAGE_SIZE
  {
    hide Low, Shr, Pow2;
    SmallPowers();
    LowIsRemainder(gpa, 12);
    LowIsRemainder(page * PAGE_SIZE, 12);
  }

  /** All of the page is where its first byte is, and `translate_gpa` finds it. */
  lemma PlainPage(sp: Space, acc: Access, page: nat, gpa: nat, m: Store)
    requires ValidSpace(sp) && Plain(sp, acc, page, m) && InPage(gpa, page)
    ensures var h := GWalk(sp, acc, page * PAGE_SIZE, m).0.pa;
            && h % PAGE_SIZE == 0 && Host(sp, acc, gpa, m) == Some(h + (gpa - page * PAGE_SIZE))
            && TableTools.CodedWalk(sp, page * PAGE_SIZE, m).Some? && TableTools.CodedWalk(sp, page * PAGE_SIZE, m).value.1 == h
  {
    hide GWalk, Low, Shr, Pow2, Splice, GpaFits, ValidSpace, TableTools.CodedWalk;
    var base := page * PAGE_SIZE;
    OnPage(gpa, page);
    OnPage(base, page);
    SameHostPage(sp, acc, page, gpa, m);
    SimplyFound(sp, acc, page, m);
    OffsetKept(sp, acc, base, m);
    OffsetKept(sp, acc, gpa, m);
    var h, k := GWalk(sp, acc, base, m).0.pa, GWalk(sp, acc, gpa, m).0.pa;
    ShrLowMeaning(h, 12);
    ShrLowMeaning(k, 12);
    SmallPowers();
  }

  lemma SameHostPage(sp: Space, acc: Access, page: nat, gpa: nat, m: Store)
    requires ValidSpace(sp) && Plain(sp, acc, page, m) && InPage(gpa, page)
    ensures var (g, h) := (GWalk(sp, acc, page * PAGE_SIZE, m).0, GWalk(sp, acc, gpa, m).0); h.GOk? && SameBlock(g.pa, h.pa, 12)
  {
    hide GReach, WellAligned, Splice, Low, Shr, Pow2;
    var base := page * PAGE_SIZE;
    PageWithin(sp, page, gpa);
    OnPage(gpa, page);
    assert GpaFits(sp, base) by { if !GpaFits(sp, base) { GMisfit(sp, acc, base, m); } }
    GLevelBound(sp, base, m);
    GWalkInBlock(sp, acc, base, gpa, 12, m);
  }

  lemma SimplyFound(sp: Space, acc: Access, page: nat, m: Store)
    requires ValidSpace(sp) && Plain(sp, acc, page, m)
    ensures var r := TableTools.CodedWalk(sp, page * PAGE_SIZE, m);
            r.Some? && r.value.1 == GWalk(sp, acc, page * PAGE_SIZE, m).0.pa
  {
    var gpa := page * PAGE_SIZE;
    TableTools.SimpleWalkAgrees(sp, acc, gpa, m);
    TableTools.CodePathFits(sp, gpa);
    hide TableTools.SimpleFrom, Indices;
  }

  /** The page offset of a translation is the address's own. */
  lemma OffsetKept(sp: Space, acc: Access, gpa: nat, m: Store)
    requires sp.gmode.Paged? && GWalk(sp, acc, gpa, m).0.GOk?
    ensures Low(GWalk(sp, acc, gpa, m).0.pa, 12) == Low(gpa, 12)
  {
    GLevelBound(sp, gpa, m);
    hide GReach, WellAligned, Low, Splice;
    var r := GReach(sp, gpa, m);
    var hi, lg := GReturned(gpa, r).PPN * PAGE_SIZE, GLg(sp, r);
    SpliceParts(hi, gpa, lg);
    LowLow(Splice(hi, gpa, lg), 12, lg);
    LowLow(gpa, 12, lg);
  }

  // ---------------------------------------------------------------- words that no walk reads

  predicate EntryKept(sp: Space, v: seq<nat>, i: nat, m: Store, n: Store) {
    T.Comes(sp, v, i, m) ==> Fetch(n, T.EntryAt(sp, v, i, m)) == Fetch(m, T.EntryAt(sp, v, i, m))
  }

  /** No entry of the second-stage tables differs. */
  ghost predicate SameTables(sp: Space, m: Store, n: Store) { SameFaults(m, n) && forall v, i :: EntryKept(sp, v, i, m, n) }

  lemma {:induction false} TableKept(sp: Space, v: seq<nat>, i: nat, m: Store, n: Store)
    requires SameTables(sp, m, n) && T.ForTable(sp, v) && i < |v|
    ensures T.TableAt(sp, v, i, n) == T.TableAt(sp, v, i, m)
    decreases |v| - i
  {
    hide Fetch, Pow2, T.ForTable, T.Pointer, EntrySlot;
    if i < |v| - 1 {
      TableKept(sp, v, i + 1, m, n);
      assert EntryKept(sp, v, i + 1, m, n);
    }
  }

  lemma {:induction false} WalkKept(sp: Space, v: seq<nat>, i: nat, m: Store, n: Store)
    requires SameTables(sp, m, n) && T.Comes(sp, v, i, m)
    ensures var a := T.TableAt(sp, v, i, m).value; GReachFrom(sp, v, i, a, n) == GReachFrom(sp, v, i, a, m)
    decreases i
  {
    hide Fetch, Pow2, T.ForTable, Malformed, BadPointer, IsLeaf, EntrySlot;
    assert EntryKept(sp, v, i, m, n);
    var a, s := T.TableAt(sp, v, i, m).value, T.EntryAt(sp, v, i, m);
    if i > 0 && a < Pow2(sp.pas) && LoadStatus(m, s.addr).Okay? && T.Pointer(sp, Fetch(m, s)) { WalkKept(sp, v, i - 1, m, n); }
  }

  lemma ReachKept(sp: Space, gpa: nat, m: Store, n: Store)
    requires SameTables(sp, m, n) && ValidSpace(sp) && sp.gmode.Paged?
    ensures GReach(sp, gpa, n) == GReach(sp, gpa, m)
  {
    hide GReachFrom, T.Path, ValidSpace, Pow2, SameTables;
    if GpaFits(sp, gpa) {
      T.PathForTable(sp, gpa);
      T.WalkOfPath(sp, gpa, m);
      T.WalkOfPath(sp, gpa, n);
      WalkKept(sp, T.Path(sp, gpa), sp.gmode.format.Levels() - 1, m, n);
    }
  }

  /** The tables are as they were: a tree, and a place to build where there was one. */
  lemma TreeKept(sp: Space, m: Store, n: Store, next: nat, rest: nat)
    requires SameTables(sp, m, n) && T.TreeShaped(sp, m) && T.Allocated(sp, m, next) && next <= rest
    ensures T.TreeShaped(sp, n) && T.Allocated(sp, n, rest)
    ensures forall v, level: nat | T.ForTable(sp, v) && T.Buildable(sp, v, level, m) :: T.Buildable(sp, v, level, n)
  {
    forall v, i: nat | T.ForTable(sp, v) && i < |v| ensures T.TableAt(sp, v, i, n) == T.TableAt(sp, v, i, m) {
      TableKept(sp, v, i, m, n);
    }
    hide T.TableAt, T.ForTable, EntrySlot, IndicesAgree, Fetch, T.Pointer, Pow2;
    forall v, i, w, j ensures T.ReadApart(sp, v, i, w, j, n) { assert T.ReadApart(sp, v, i, w, j, m); }
    forall v, i ensures T.EntryBelow(sp, v, i, n, rest) { assert T.EntryBelow(sp, v, i, m, next); }
    forall v, level: nat | T.ForTable(sp, v) && T.Buildable(sp, v, level, m) ensures T.Buildable(sp, v, level, n) {
      forall j | level <= j < |v| ensures T.Usable(sp, v, j, level, n) {
        assert T.Usable(sp, v, j, level, m);
        assert EntryKept(sp, v, j, m, n);
      }
    }
  }

  /** Handing out a free page, which is cleared, touches no table. */
  lemma ClearingKeeps(sp: Space, m: Store, next: nat)
    requires T.Allocated(sp, m, next)
    ensures SameTables(sp, m, T.ClearPage(m, next))
  {
    var n := T.ClearPage(m, next);
    forall v, i ensures EntryKept(sp, v, i, m, n) { assert T.EntryBelow(sp, v, i, m, next); }
  }

  // ---------------------------------------------------------------- mapping one more page

  /** The leaf that maps a page of guest memory for tables, writable for those of the first stage */
  function PageLeaf(page: nat, writable: bool): Pte {
    ZERO_PTE.(V := true, R := true, W := writable, U := true, PPN := page % 0x1000_0000_0000)
  }

  /** A free page is handed out and `add_g_stage_pte` maps guest page `g` to it. */
  function MapPage(sp: Space, g: nat, writable: bool, m: Store, next: nat): T.Built
    requires sp.gmode.Paged?
  {
    TableTools.BuildCoded(sp, g * PAGE_SIZE, 0, PageLeaf(next, writable), T.ClearPage(m, next), next + 1)
  }

  /** Building has no effect on injected faults and meets none where it writes, and takes a page a level at most. */
  lemma {:induction false} BuildFaults(f: Format, vpn: seq<nat>, i: nat, level: nat, a: nat, leaf: Pte, m: Store, next: nat)
    requires i < |vpn|
    ensures var b := T.BuildFrom(f, vpn, i, level, a, leaf, m, next);
            SameFaults(m, b.store) && next <= b.next <= next + i && (b.addr.Some? ==> StoreStatus(m, b.addr.value).Okay?)
    decreases i
  {
    hide EntrySlot, Fetch;
    var s := EntrySlot(f, vpn, i, a);
    var p := Fetch(m, s);
    if i > level {
      if p.V { BuildFaults(f, vpn, i - 1, level, p.PPN * PAGE_SIZE, leaf, m, next); }
      else {
        var q := T.Linked(p, next);
        BuildFaults(f, vpn, i - 1, level, q.PPN * PAGE_SIZE, leaf, Put(T.ClearPage(m, next), s, q), next + 1);
      }
    }
  }

  /** The next `n` guest pages have a place in the second stage. */
  ghost predicate Fresh(sp: Space, m: Store, gnext: nat, n: nat) {
    gnext + n <= 0x1000_0000_0000 && sp.gmode.Paged? &&
    forall k: nat | gnext <= k < gnext + n :: GpaFits(sp, k * PAGE_SIZE) && T.CanPlace(sp, k * PAGE_SIZE, 0, m)
  }

  /** The second stage can take one more page: guest page `g` has a place and there is free memory. */
  ghost predicate MayMap(sp: Space, g: nat, m: Store, next: nat) {
    && ValidSpace(sp) && sp.gmode.Paged? && T.TreeShaped(sp, m) && T.Allocated(sp, m, next) && FreeIsClean(m, next)
    && GpaFits(sp, g * PAGE_SIZE) && T.CanPlace(sp, g * PAGE_SIZE, 0, m) && T.Room(sp, next, sp.gmode.format.Levels())
  }

  /** What the second stage is after that. */
  ghost predicate Mapped(sp: Space, g: nat, writable: bool, m: Store, next: nat, b: T.Built)
    requires sp.gmode.Paged?
  {
    && b.addr.Some? && StoreStatus(m, b.addr.value).Okay? && next < b.next <= next + sp.gmode.format.Levels() && SameFaults(m, b.store)
    && T.TreeShaped(sp, b.store) && T.Allocated(sp, b.store, b.next) && FreeIsClean(b.store, b.next)
    && (forall x: nat | GpaFits(sp, x) && T.CanPlace(sp, x, 0, m) :: T.CanPlace(sp, x, 0, b.store))
    && forall x: nat :: GReach(sp, x, b.store) ==
         if InPage(x, g) then GLeaf(b.addr.value, PageLeaf(next, writable), 0) else GReach(sp, x, m)
  }

  lemma MapPageIsMapUpdate(sp: Space, g: nat, writable: bool, m: Store, next: nat)
    requires MayMap(sp, g, m, next)
    ensures Mapped(sp, g, writable, m, next, MapPage(sp, g, writable, m, next))
  {
    hide T.Build, T.BuildFrom, T.TreeShaped, T.Allocated, FreeIsClean, T.Buildable, T.Path, GReach, T.ClearPage, ValidSpace, SameBlock,
         T.NewLeaf, SameTables, T.ForTable, GpaFits, MapPage, InPage;
    var gpa, leaf, n := g * PAGE_SIZE, PageLeaf(next, writable), T.ClearPage(m, next);
    PageCleared(sp, g, writable, m, next);
    MapPageBuilds(sp, g, writable, m, next);
    var b := MapPage(sp, g, writable, m, next);
    T.BuildIsMapUpdate(sp, gpa, 0, leaf, n, next + 1);
    forall x: nat ensures GReach(sp, x, b.store) == if InPage(x, g) then GLeaf(b.addr.value, leaf, 0) else GReach(sp, x, m) {
      PageOrNot(sp, g, x);
      if !GpaFits(sp, x) { NoReach(sp, x, m, b.store); }
    }
  }

  lemma MapPageBuilds(sp: Space, g: nat, writable: bool, m: Store, next: nat)
    requires ValidSpace(sp) && sp.gmode.Paged? && GpaFits(sp, g * PAGE_SIZE)
    ensures var b := MapPage(sp, g, writable, m, next);
            && b == T.Build(sp, g * PAGE_SIZE, 0, PageLeaf(next, writable), T.ClearPage(m, next), next + 1)
            && SameFaults(m, b.store) && (b.addr.Some? ==> StoreStatus(m, b.addr.value).Okay?)
  {
    hide T.BuildFrom, T.Path, GpaFits, ValidSpace, PageLeaf;
    TableTools.CodePathFits(sp, g * PAGE_SIZE);
    BuildFaults(sp.gmode.format, T.Path(sp, g * PAGE_SIZE), sp.gmode.format.Levels() - 1, 0, sp.gppn * PAGE_SIZE,
                PageLeaf(next, writable), T.ClearPage(m, next), next + 1);
  }

  lemma PageOrNot(sp: Space, g: nat, x: nat)
    requires ValidSpace(sp) && sp.gmode.Paged? && GpaFits(sp, g * PAGE_SIZE)
    ensures SameBlock(g * PAGE_SIZE, x, 12) <==> InPage(x, g)
    ensures InPage(x, g) ==> GpaFits(sp, x)
  {
    OnPage(x, g);
    hide GpaFits;
    if InPage(x, g) { PageWithin(sp, g, x); }
  }

  /** The page handed out is no table's, so all is ready for building. */
  lemma PageCleared(sp: Space, g: nat, writable: bool, m: Store, next: nat)
    requires MayMap(sp, g, m, next)
    ensures var n := T.ClearPage(m, next);
            && T.MayBuild(sp, T.Path(sp, g * PAGE_SIZE), 0, PageLeaf(next, writable), n, next + 1)
            && T.Room(sp, next + 1, sp.gmode.format.Levels() - 1) && SameFaults(m, n)
            && (forall x: nat :: GReach(sp, x, n) == GReach(sp, x, m))
            && forall x: nat | T.CanPlace(sp, x, 0, m) :: T.CanPlace(sp, x, 0, n)
  {
    var n := T.ClearPage(m, next);
    assert SameFaults(m, n) && FreeIsClean(n, next + 1);
    NewPageLeaf(sp, writable, next);
    ClearingKeeps(sp, m, next);
    TreeKept(sp, m, n, next, next + 1);
    hide T.TreeShaped, T.Allocated, FreeIsClean, T.Buildable, T.Path, GReach, T.ClearPage, Pow2, T.NewLeaf, SameTables, T.ForTable,
         GpaFits;
    forall x: nat ensures GReach(sp, x, n) == GReach(sp, x, m) { ReachKept(sp, x, m, n); }
  }

  /** It stays so when no entry of its tables changes. */
  lemma MappedKept(sp: Space, g: nat, writable: bool, m: Store, next: nat, b: T.Built, n: Store)
    requires ValidSpace(sp) && sp.gmode.Paged? && Mapped(sp, g, writable, m, next, b) && SameTables(sp, b.store, n)
    ensures Mapped(sp, g, writable, m, next, b.(store := n))
  {
    TreeKept(sp, b.store, n, b.next, b.next);
    hide T.TreeShaped, T.Allocated, T.Buildable, T.Path, GReach, ValidSpace, T.ForTable, GpaFits, SameTables;
    FaultsKept(sp, b.store, n, b.next);
    forall x: nat ensures GReach(sp, x, n) == GReach(sp, x, b.store) { ReachKept(sp, x, b.store, n); }
  }

  lemma FaultsKept(sp: Space, m: Store, n: Store, next: nat)
    requires SameTables(sp, m, n)
    ensures SameFaults(m, n) && (FreeIsClean(m, next) ==> FreeIsClean(n, next))
  {
  }

  lemma NewPageLeaf(sp: Space, writable: bool, next: nat)
    requires ValidSpace(sp) && sp.gmode.Paged? && T.Room(sp, next, 1)
    ensures T.NewLeaf(sp, PageLeaf(next, writable), 0) && PageLeaf(next, writable).PPN == next
  {
  }

  lemma NoReach(sp: Space, x: nat, m: Store, n: Store)
    requires sp.gmode.Paged? && !GpaFits(sp, x)
    ensures GReach(sp, x, n) == GReach(sp, x, m)
  {
  }

  /** An access to read tables: what directory walks and first-stage walks make. */
  predicate Reads(acc: Access) { acc.read && !acc.write && !acc.exec }

  /** The new guest page is read at the new page if walks may set its A bit, and else not at all. */
  lemma NewPageRead(sp: Space, acc: Access, g: nat, writable: bool, gpa: nat, m: Store, next: nat, b: T.Built)
    requires sp.gmode.Paged? && Mapped(sp, g, writable, m, next, b) && InPage(gpa, g) && Reads(acc) && T.Room(sp, next, 1)
    ensures var r := GWalk(sp, acc, gpa, b.store).0;
            if sp.gade then r.GOk? && r.pa == next * PAGE_SIZE + (gpa - g * PAGE_SIZE) && r.pte == PageLeaf(next, writable)
            else r == GErr(GstPageFault)
  {
    assert GReach(sp, gpa, b.store) == GLeaf(b.addr.value, PageLeaf(next, writable), 0);
    NewPageLeaf0(sp, next, writable);
    PageSplice(g, gpa, next);
    hide GReach, Splice, Low, Shr, Pow2, T.TreeShaped, T.Allocated, FreeIsClean, WellAligned, PageLeaf;
    assert SameFaults(m, b.store) && StoreStatus(m, b.addr.value).Okay?;
    hide Mapped;
  }

  lemma PageSplice(g: nat, gpa: nat, next: nat)
    requires InPage(gpa, g)
    ensures Splice(next * PAGE_SIZE, gpa, 12) == next * PAGE_SIZE + (gpa - g * PAGE_SIZE)
  {
    hide Splice, Low, Shr, Pow2;
    OnPage(gpa, g);
    SmallPowers();
    ShrOfMultiple(next, 12, 0);
    SpliceParts(next * PAGE_SIZE, gpa, 12);
  }

  lemma NewPageLeaf0(sp: Space, next: nat, writable: bool)
    requires sp.gmode.Paged? && T.Room(sp, next, 1)
    ensures var p := PageLeaf(next, writable);
            p.PPN == next && !p.N && p.U && p.R && !p.A && WellAligned(sp.gmode.format, 0, p)
  {
    hide Low;
    LowOfNothing(next);
  }

  lemma LowOfNothing(x: nat)
    ensures Low(x, 0) == 0
  {
  }

  /** The other pages are read where they were. */
  lemma OtherPageRead(sp: Space, acc: Access, g: nat, writable: bool, gpa: nat, m: Store, next: nat, b: T.Built)
    requires sp.gmode.Paged? && Mapped(sp, g, writable, m, next, b) && !InPage(gpa, g)
    ensures GWalk(sp, acc, gpa, b.store).0 == GWalk(sp, acc, gpa, m).0
  {
    assert GReach(sp, gpa, b.store) == GReach(sp, gpa, m);
    hide GReach, Splice, WellAligned, T.TreeShaped, T.Allocated, FreeIsClean, Mapped;
  }

  // ---------------------------------------------------------------- what building leaves alone

  predicate OldOrNew(sp: Space, m: Store, next: nat, n: Store, v: seq<nat>, i: nat) {
    T.Comes(sp, v, i, n) ==>
      var s := T.EntryAt(sp, v, i, n); s.addr >= next * PAGE_SIZE || (T.Comes(sp, v, i, m) && T.EntryAt(sp, v, i, m) == s)
  }

  predicate IsEntry(sp: Space, m: Store, v: seq<nat>, i: nat, addr: nat) { T.Comes(sp, v, i, m) && T.EntryAt(sp, v, i, m).addr == addr }

  ghost predicate WordAlone(sp: Space, m: Store, next: nat, n: Store, s: Slot) {
    s.addr < next * PAGE_SIZE && Fetch(n, s) != Fetch(m, s) ==> exists v, i :: IsEntry(sp, m, v, i, s.addr)
  }

  /** The entries of the tables in `n` are entries from before or lie from page `next` on, and no other word
      below that page has changed. */
  ghost predicate Grown(sp: Space, m: Store, next: nat, n: Store) {
    (forall v, i :: OldOrNew(sp, m, next, n, v, i)) && forall s :: WordAlone(sp, m, next, n, s)
  }

  lemma GrownTwice(sp: Space, m: Store, next: nat, n: Store, next': nat, o: Store)
    requires Grown(sp, m, next, n) && Grown(sp, n, next', o) && next <= next'
    ensures Grown(sp, m, next, o)
  {
    hide T.Comes, T.EntryAt, Fetch;
    forall v, i ensures OldOrNew(sp, m, next, o, v, i) {
      assert OldOrNew(sp, n, next', o, v, i) && OldOrNew(sp, m, next, n, v, i);
    }
    forall s ensures WordAlone(sp, m, next, o, s) {
      assert WordAlone(sp, m, next, n, s) && WordAlone(sp, n, next', o, s);
      if s.addr < next * PAGE_SIZE && Fetch(o, s) != Fetch(m, s) && Fetch(n, s) == Fetch(m, s) {
        var v, i :| IsEntry(sp, n, v, i, s.addr);
        assert OldOrNew(sp, m, next, n, v, i);
        assert IsEntry(sp, m, v, i, s.addr);
      }
    }
  }

  lemma ClearingGrows(sp: Space, m: Store, next: nat)
    requires T.Allocated(sp, m, next)
    ensures Grown(sp, m, next, T.ClearPage(m, next))
  {
    var n := T.ClearPage(m, next);
    ClearingKeeps(sp, m, next);
    forall v, i ensures OldOrNew(sp, m, next, n, v, i) { if T.Comes(sp, v, i, n) { TableKept(sp, v, i, m, n); } }
  }

  lemma LinkGrows(sp: Space, v: seq<nat>, i: nat, level: nat, m: Store, next: nat)
    requires T.MayLink(sp, v, i, level, m, next)
    ensures Grown(sp, m, next, T.LinkedStore(sp, v, i, m, next))
  {
    var n := T.LinkedStore(sp, v, i, m, next);
    T.LinkEdits(sp, v, i, level, m, next);
    hide T.LinkedStore, T.TreeShaped, T.Allocated, FreeIsClean, Fetch, IndicesAgree, T.Buildable, ValidSpace;
    forall w, j ensures OldOrNew(sp, m, next, n, w, j) { if T.Comes(sp, w, j, n) { T.LinkedEntry(sp, v, i, level, w, j, m, next); } }
    assert IsEntry(sp, m, v, i, T.EntryAt(sp, v, i, m).addr);
  }

  lemma LeafGrows(sp: Space, v: seq<nat>, level: nat, leaf: Pte, m: Store, next: nat)
    requires T.MayWrite(sp, v, level, leaf, m, next)
    ensures Grown(sp, m, next, T.LeafStore(sp, v, level, leaf, m))
  {
    var n := T.LeafStore(sp, v, level, leaf, m);
    T.LeafEdits(sp, v, level, leaf, m, next);
    hide T.LeafStore, T.TreeShaped, T.Allocated, Fetch, IndicesAgree, T.Buildable, T.NewLeaf;
    forall w, j ensures OldOrNew(sp, m, next, n, w, j) { if T.Comes(sp, w, j, n) { T.LeafTables(sp, v, level, leaf, w, j, m, next); } }
    assert IsEntry(sp, m, v, level, T.EntryAt(sp, v, level, m).addr);
  }

  lemma {:induction false} BuildGrows(sp: Space, v: seq<nat>, i: nat, level: nat, leaf: Pte, m: Store, next: nat)
    requires T.MayBuild(sp, v, level, leaf, m, next) && T.Comes(sp, v, i, m) && level <= i && T.Room(sp, next, i - level)
    ensures Grown(sp, m, next, T.BuildFrom(sp.gmode.format, v, i, level, T.TableAt(sp, v, i, m).value, leaf, m, next).store)
    decreases i
  {
    hide T.BuildFrom, T.TableAt, Pow2, Fetch, T.TreeShaped, T.Allocated, FreeIsClean, T.Buildable, ValidSpace, T.LinkedStore, Grown,
         InTable;
    T.UsableAt(sp, v, i, level, m);
    if i == level {
      LeafBuilt(sp, v, level, leaf, m, next);
    } else if Fetch(m, T.EntryAt(sp, v, i, m)).V {
      T.FollowStep(sp, v, i, level, leaf, m, next);
      BuildGrows(sp, v, i - 1, level, leaf, m, next);
    } else {
      T.LinkReady(sp, v, i, level, leaf, m, next);
      T.LinkStep(sp, v, i, level, leaf, m, next);
      var n := T.LinkedStore(sp, v, i, m, next);
      LinkGrows(sp, v, i, level, m, next);
      BuildGrows(sp, v, i - 1, level, leaf, n, next + 1);
      GrownTwice(sp, m, next, n, next + 1, T.BuildFrom(sp.gmode.format, v, i - 1, level, next * PAGE_SIZE, leaf, n, next + 1).store);
    }
  }

  lemma LeafBuilt(sp: Space, v: seq<nat>, level: nat, leaf: Pte, m: Store, next: nat)
    requires T.MayBuild(sp, v, level, leaf, m, next) && T.Comes(sp, v, level, m)
    ensures Grown(sp, m, next, T.BuildFrom(sp.gmode.format, v, level, level, T.TableAt(sp, v, level, m).value, leaf, m, next).store)
  {
    T.WriteReady(sp, v, level, leaf, m, next);
    T.UsableAt(sp, v, level, level, m);
    LeafGrows(sp, v, level, leaf, m, next);
    hide T.TableAt, Pow2, Fetch, T.TreeShaped, T.Allocated, FreeIsClean, T.Buildable, ValidSpace, Grown, InTable;
  }

  /** Mapping a page leaves the rest of memory alone, the page itself cleared. */
  lemma MapPageGrows(sp: Space, g: nat, writable: bool, m: Store, next: nat)
    requires MayMap(sp, g, m, next)
    ensures Grown(sp, m, next, MapPage(sp, g, writable, m, next).store)
    ensures Grown(sp, T.ClearPage(m, next), next + 1, MapPage(sp, g, writable, m, next).store)
  {
    hide T.BuildFrom, T.TreeShaped, T.Allocated, FreeIsClean, T.Buildable, T.Path, T.ClearPage, ValidSpace, Pow2, T.NewLeaf, GpaFits,
         Grown;
    var gpa, n, top := g * PAGE_SIZE, T.ClearPage(m, next), sp.gmode.format.Levels() - 1;
    PageCleared(sp, g, writable, m, next);
    TableTools.CodePathFits(sp, gpa);
    ClearingGrows(sp, m, next);
    BuildGrows(sp, T.Path(sp, gpa), top, 0, PageLeaf(next, writable), n, next + 1);
    GrownTwice(sp, m, next, n, next + 1, MapPage(sp, g, writable, m, next).store);
  }

  // ---------------------------------------------------------------- what the builders call

  /** `translate_gpa`, which also fails for a Bare second stage */
  function SimpleHost(sp: Space, a: nat, m: Store): Option<nat> {
    if sp.gmode.Bare? then None
    else match TableTools.CodedWalk(sp, a, m) case Some(r) => Some(r.1) case None => None
  }

  method FindPage(mem: Memory, sp: Space, a: U64) returns (h: Option<nat>)
    requires ValidSpace(sp)
    ensures h == SimpleHost(sp, a, mem.store)
  {
    var addr, spa := TableTools.TranslateGpa(mem, sp, a, a);
    h := if addr.None? then None else Some(spa);
  }

  /** A free page is taken, and guest page `g` mapped to it. */
  method MapFreePage(pages: TableTools.Allocator, mem: Memory, sp: Space, g: nat, writable: bool) returns (ok: bool)
    requires ValidSpace(sp) && sp.gmode.Paged? && g < 0x1000_0000_0000 && pages.nextFreePage + 8 < TWO_64
    modifies pages, mem
    ensures var b := MapPage(sp, g, writable, old(mem.store), old(pages.nextFreePage));
            mem.store == b.store && pages.nextFreePage == b.next <= old(pages.nextFreePage) + 5 && ok == b.addr.Some?
  {
    hide TableTools.ClearPages, T.ClearPage, ValidSpace, TableTools.RoundedUp;
    TableTools.OnePage(mem.store, pages.nextFreePage);
    var page := pages.GetFreePpn(mem, 0);
    BuildFaults(sp.gmode.format, TableTools.CodePath(sp, g * PAGE_SIZE), sp.gmode.format.Levels() - 1, 0, sp.gppn * PAGE_SIZE,
                PageLeaf(page, writable), mem.store, page + 1);
    hide T.BuildFrom, TableTools.CodePath, T.Path, GpaFits, TableTools.ClearPages, T.Build, ValidSpace, T.ClearPage;
    var addr := pages.AddGStagePte(mem, sp, g * PAGE_SIZE, PageLeaf(page, writable), 0);
    ok := addr.Some?;
  }
}
