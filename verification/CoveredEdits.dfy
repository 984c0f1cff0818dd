/** Page-table edits that an invalidation of one page covers: on tables that share no entries, a leaf
    is read for the addresses of its own page and for no others. */
module CoveredEdits {
  import opened Bits
  import opened Common
  import opened PageTables
  import opened SecondStage
  import opened TwoStage
  import opened Translate
  import opened AdUpdates
  import opened Superpages
  import opened Napot
  import opened Iotlb
  import opened Transparency
  import opened TransparentRuns
  import T = TableBuilder

  // ---------------------------------------------------------------- who reads an entry

  /** A walk ends at the entry its indices lead to. */
  lemma {:induction false} EndsAtEntry(sp: Space, v: seq<nat>, i: nat, m: Store)
    requires T.Comes(sp, v, i, m) && GReachFrom(sp, v, i, T.TableAt(sp, v, i, m).value, m).GLeaf?
    ensures var r := GReachFrom(sp, v, i, T.TableAt(sp, v, i, m).value, m);
            r.level <= i && T.Comes(sp, v, r.level, m) && T.EntryAt(sp, v, r.level, m).addr == r.addr
    decreases i
  {
    hide Malformed, BadPointer, Fetch, Pow2, InTable;
    if !IsLeaf(Fetch(m, T.EntryAt(sp, v, i, m))) { EndsAtEntry(sp, v, i - 1, m); }
  }

  /** Every word a finished walk reads is an entry on its path. */
  lemma {:induction false} FootOnPath(sp: Space, w: seq<nat>, j: nat, m: Store, s: Slot) returns (k: nat)
    requires T.Comes(sp, w, j, m) && GReachFrom(sp, w, j, T.TableAt(sp, w, j, m).value, m).GLeaf?
    requires s in GFootFrom(sp, w, j, T.TableAt(sp, w, j, m).value, m)
    ensures k <= j && T.Comes(sp, w, k, m) && T.EntryAt(sp, w, k, m) == s
    decreases j
  {
    hide Malformed, BadPointer, Fetch, Pow2, InTable;
    if s == T.EntryAt(sp, w, j, m) { return j; }
    k := FootOnPath(sp, w, j - 1, m, s);
  }

  /** Tables of the walks of `v` and `w` that share no entries: the leaf of one is read by the other
      only if their indices agree down to it. */
  lemma SharedLeaf(sp: Space, v: seq<nat>, w: seq<nat>, m: Store, s: Slot)
    requires T.ForTable(sp, v) && T.ForTable(sp, w) && (forall i, j :: T.ReadApart(sp, v, i, w, j, m))
    requires T.Walk(sp, v, m).GLeaf? && T.Walk(sp, w, m).GLeaf? && s.addr == T.Walk(sp, v, m).addr
    requires s in GFootFrom(sp, w, |w| - 1, sp.gppn * PAGE_SIZE, m)
    ensures IndicesAgree(v, w, T.Walk(sp, v, m).level)
  {
    hide GReachFrom, GFootFrom, IndicesAgree, T.EntryAt;
    var top := |v| - 1;
    assert T.TableAt(sp, v, top, m) == Some(sp.gppn * PAGE_SIZE) == T.TableAt(sp, w, top, m);
    EndsAtEntry(sp, v, top, m);
    var k := FootOnPath(sp, w, top, m, s);
    assert T.ReadApart(sp, v, T.Walk(sp, v, m).level, w, k, m);
  }

  // ---------------------------------------------------------------- a leaf of the second stage

  lemma SecondStageReaders(sp: Space, x: nat, y: nat, m: Store)
    requires ValidSpace(sp) && sp.gmode.Paged? && T.TreeShaped(sp, m) && GReach(sp, x, m).GLeaf? && GReach(sp, y, m).GLeaf?
    requires Slot(GReach(sp, x, m).addr, sp.gmode.format.PteSize()) in GFoot(sp, y, m)
    ensures GReach(sp, x, m).level < sp.gmode.format.Levels() && SameBlock(x, y, sp.gmode.format.Shift(GReach(sp, x, m).level))
  {
    hide GReachFrom, GFootFrom, Indices, InTable, SameBlock, T.ReadApart, IndicesAgree, ValidSpace;
    var f := sp.gmode.format;
    var v, w := Indices(f, f.RootWidening(), x), Indices(f, f.RootWidening(), y);
    SecondStageFits(sp, x);
    SecondStageFits(sp, y);
    GLevelBound(sp, x, m);
    SharedLeaf(sp, v, w, m, Slot(GReach(sp, x, m).addr, f.PteSize()));
    T.IndicesTellApart(sp, x, y, GReach(sp, x, m).level);
  }

  lemma SecondStageFits(sp: Space, x: nat)
    requires ValidSpace(sp) && sp.gmode.Paged? && GpaFits(sp, x)
    ensures var f := sp.gmode.format; T.ForTable(sp, Indices(f, f.RootWidening(), x))
  {
    SecondStageIndices(sp.gmode.format, x);
  }

  predicate InVm(t: Tag, gscid: nat) { t.gv && t.gscid == gscid }

  /** The second-stage tables of format `f` form a tree, and take `gpa` to the leaf `r`. */
  ghost predicate MapsTo(sp: Space, f: Format, gpa: nat, r: GReached, m: Store) {
    sp.gmode == Paged(f) && T.TreeShaped(sp, m) && GReach(sp, gpa, m) == r
  }

  /** The word is read for no address of a space that `among` leaves out. */
  ghost predicate ReadOnlyBy(spaces: map<Tag, Space>, m: Store, s: Slot, among: set<Tag>) {
    forall t, iova: U64 | t in spaces && t !in among && Finished(spaces[t], iova, m) :: s !in Footprint(spaces[t], iova, m)
  }

  /** IOTINVAL.GVMA with AV=1 for the page of 2^lg bytes at `gpa`. */
  function GvmaPage(gscid: nat, gpa: U64, lg: nat, gscid0: bool, addr0: bool): Command
    requires 12 <= lg <= 48
  {
    CodedPageNumber(gpa, lg);
    Gvma(Inval(true, true, false, gscid, 0, Coded(gpa, lg), lg > 12), gscid0, addr0)
  }

  lemma CodedPageNumber(x: U64, lg: nat)
    requires 12 <= lg <= 48
    ensures Coded(x, lg) < 0x10_0000_0000_0000
  {
    hide Coded;
    NapotPnIsCoded(x, lg);
  }

  /** Whatever a leaf of a VM's second stage is replaced by, IOTINVAL.GVMA for its page alone covers
      the edit, if the VM's tables form a tree and no one else reads the leaf. */
  lemma VmLeafEditIsCovered(spaces: map<Tag, Space>, m: Store, gscid: nat, f: Format, gpa: U64, r: GReached, p: Pte,
                            gscid0: bool, addr0: bool)
    requires ValidSpaces(spaces) && r.GLeaf? && r.level < f.Levels()
    requires forall t | t in spaces && InVm(t, gscid) && !t.pscv :: MapsTo(spaces[t], f, gpa, r, m)
    requires ReadOnlyBy(spaces, m, Slot(r.addr, f.PteSize()), set t | t in spaces && InVm(t, gscid))
    ensures Covered(spaces, m, map[Slot(r.addr, f.PteSize()) := p], GvmaPage(gscid, gpa, f.Shift(r.level), gscid0, addr0))
  {
    hide GvmaPage, Footprint, Finished, LeafGlobal, T.TreeShaped, ValidSpace;
    var s := Slot(r.addr, f.PteSize());
    forall t, iova: U64 | t in spaces && Finished(spaces[t], iova, m) && s in Footprint(spaces[t], iova, m)
      ensures Names(GvmaPage(gscid, gpa, f.Shift(r.level), gscid0, addr0), t, iova / PAGE_SIZE, LeafGlobal(spaces[t], iova, m))
    {
      assert InVm(t, gscid);
      if !t.pscv { VmReaders(spaces[t], f, gpa, r, iova, m); }
      VmNames(t, gscid, gpa, f.Shift(r.level), gscid0, addr0, iova, LeafGlobal(spaces[t], iova, m));
    }
  }

  lemma VmReaders(sp: Space, f: Format, gpa: U64, r: GReached, iova: U64, m: Store)
    requires ValidSpace(sp) && sp.vmode.Bare? && MapsTo(sp, f, gpa, r, m) && r.GLeaf? && Finished(sp, iova, m)
    requires Slot(r.addr, f.PteSize()) in Footprint(sp, iova, m)
    ensures SameBlock(gpa, iova, f.Shift(r.level))
  {
    hide GReach, GFoot, WellAligned, SameBlock, T.TreeShaped, ValidSpace;
    SecondStageReaders(sp, gpa, iova, m);
  }

  lemma VmNames(t: Tag, gscid: nat, gpa: U64, lg: nat, gscid0: bool, addr0: bool, iova: U64, global: bool)
    requires 12 <= lg <= 48 && InVm(t, gscid) && (!t.pscv ==> SameBlock(gpa, iova, lg))
    ensures Names(GvmaPage(gscid, gpa, lg, gscid0, addr0), t, iova / PAGE_SIZE, global)
  {
    hide Coded, InRange, SameBlock;
    CodedRoundTrip(gpa, lg);
    BlockSymmetric(gpa, iova, lg);
  }

  lemma BlockSymmetric(x: nat, y: nat, k: nat)
    ensures SameBlock(x, y, k) == SameBlock(y, x, k)
  {
  }

  /** For instance, what `add_g_stage_pte` has mapped is unmapped, or mapped elsewhere, under an
      invalidation of its page. */
  lemma BuiltLeafEditIsCovered(t: Tag, sp: Space, gpa: U64, level: nat, leaf: Pte, m: Store, next: nat, p: Pte)
    requires ValidSpaces(map[t := sp]) && t.gv && !t.pscv && GpaFits(sp, gpa) && level < sp.gmode.format.Levels()
    requires T.MayBuild(sp, T.Path(sp, gpa), level, leaf, m, next)
    requires T.Room(sp, next, sp.gmode.format.Levels() - 1 - level)
    ensures var b := T.Build(sp, gpa, level, leaf, m, next);
            && b.addr.Some?
            && Covered(map[t := sp], b.store, map[Slot(b.addr.value, sp.gmode.format.PteSize()) := p],
                       GvmaPage(t.gscid, gpa, sp.gmode.format.Shift(level), false, false))
  {
    hide T.Build, T.TreeShaped, T.Allocated, FreeIsClean, GReach, Covered, GvmaPage, Footprint, Finished, ValidSpaces, SameBlock;
    T.BuildIsMapUpdate(sp, gpa, level, leaf, m, next);
    var b := T.Build(sp, gpa, level, leaf, m, next);
    BlockReflexive(gpa, sp.gmode.format.Shift(level));
    assert map[t := sp][t] == sp;
    VmLeafEditIsCovered(map[t := sp], b.store, t.gscid, sp.gmode.format, gpa, GLeaf(b.addr.value, leaf, level), p, false, false);
  }

  lemma BlockReflexive(x: nat, k: nat)
    ensures SameBlock(x, x, k)
  {
  }

  // ---------------------------------------------------------------- a leaf of the first stage

  /** Where the second stage puts the first-stage entry that `vpn` has at level `i` of the table at `a`. */
  function HostEntry(sp: Space, vpn: seq<nat>, i: nat, a: nat, m: Store): Option<Slot>
    requires sp.vmode.Paged? && i < |vpn|
  {
    var g := GWalk(sp, IMPLICIT, EntrySlot(sp.vmode.format, vpn, i, a).addr, m).0;
    if g.GOk? then Some(Slot(g.pa, sp.vmode.format.PteSize())) else None
  }

  /** The guest address of the first-stage table that `vpn` leads to at level `i`. */
  function VTableAt(sp: Space, vpn: seq<nat>, i: nat, m: Store): Option<nat>
    requires sp.vmode.Paged? && i < |vpn|
    decreases |vpn| - i
  {
    if i == |vpn| - 1 then Some(sp.vppn * PAGE_SIZE)
    else match VTableAt(sp, vpn, i + 1, m)
      case None => None
      case Some(a) =>
        match HostEntry(sp, vpn, i + 1, a, m)
        case None => None
        case Some(s) => if Malformed(sp, Fetch(m, s)) || IsLeaf(Fetch(m, s)) then None else Some(Fetch(m, s).PPN * PAGE_SIZE)
  }

  predicate VComes(sp: Space, vpn: seq<nat>, i: nat, m: Store) {
    && sp.vmode.Paged? && InTable(sp.vmode.format, vpn, PAGE_SIZE) && i < |vpn|
    && VTableAt(sp, vpn, i, m).Some? && HostEntry(sp, vpn, i, VTableAt(sp, vpn, i, m).value, m).Some?
  }

  function VEntryAt(sp: Space, vpn: seq<nat>, i: nat, m: Store): Slot
    requires VComes(sp, vpn, i, m)
  {
    HostEntry(sp, vpn, i, VTableAt(sp, vpn, i, m).value, m).value
  }

  /** Two first-stage walks read one word of memory only where all their indices so far agree. */
  predicate VReadApart(sp: Space, v: seq<nat>, i: nat, w: seq<nat>, j: nat, m: Store) {
    VComes(sp, v, i, m) && VComes(sp, w, j, m) && VEntryAt(sp, v, i, m) == VEntryAt(sp, w, j, m) ==> i == j && IndicesAgree(v, w, i)
  }

  /** The first-stage tables form a tree in memory. */
  ghost predicate FirstStageTree(sp: Space, m: Store) { forall v, i, w, j :: VReadApart(sp, v, i, w, j, m) }

  /** The word is no entry of the second-stage tables. */
  ghost predicate NotSecondStage(sp: Space, m: Store, s: Slot) {
    forall gpa :: GReach(sp, gpa, m).GStop? || s !in GFoot(sp, gpa, m)
  }

  /** A finished first-stage walk ends at the entry its indices lead to. */
  lemma {:induction false} VEndsAtEntry(sp: Space, v: seq<nat>, i: nat, a: nat, global: bool, m: Store)
    requires sp.vmode.Paged? && InTable(sp.vmode.format, v, PAGE_SIZE) && i < |v| && VTableAt(sp, v, i, m) == Some(a)
    requires VReachFrom(sp, v, i, a, global, m).0.VLeaf? && VReachFrom(sp, v, i, a, global, m).1 == m
    ensures var r := VReachFrom(sp, v, i, a, global, m).0;
            r.level <= i && VComes(sp, v, r.level, m) && VEntryAt(sp, v, r.level, m) == Slot(r.addr, sp.vmode.format.PteSize())
    decreases i
  {
    hide GWalk, Malformed, BadPointer, Fetch, Pow2, InTable, EntrySlot;
    FirstStepUnchanged(sp, v, i, a, global, m);
    var g := GWalk(sp, IMPLICIT, EntrySlot(sp.vmode.format, v, i, a).addr, m).0;
    var p := Fetch(m, Slot(g.pa, sp.vmode.format.PteSize()));
    if !IsLeaf(p) { VEndsAtEntry(sp, v, i - 1, p.PPN * PAGE_SIZE, global || p.G, m); }
  }

  /** Every word it reads that is no second-stage entry is an entry on its path. */
  lemma {:induction false} VFootOnPath(sp: Space, w: seq<nat>, j: nat, a: nat, global: bool, m: Store, s: Slot) returns (k: nat)
    requires sp.vmode.Paged? && InTable(sp.vmode.format, w, PAGE_SIZE) && j < |w| && VTableAt(sp, w, j, m) == Some(a)
    requires VReachFrom(sp, w, j, a, global, m).0.VLeaf? && VReachFrom(sp, w, j, a, global, m).1 == m
    requires s in VFootFrom(sp, w, j, a, m) && NotSecondStage(sp, m, s)
    ensures k <= j && VComes(sp, w, k, m) && VEntryAt(sp, w, k, m) == s
    decreases j
  {
    hide VTableAt, VReachFrom, VFootFrom, HostEntry, NotSecondStage, InTable, Fetch;
    FootStep(sp, w, j, a, global, m, s);
    if s == HostEntry(sp, w, j, a, m).value { return j; }
    var p := Fetch(m, HostEntry(sp, w, j, a, m).value);
    k := VFootOnPath(sp, w, j - 1, p.PPN * PAGE_SIZE, global || p.G, m, s);
  }

  /** Such a word is the one the walk reads first, or is read in the next table. */
  lemma FootStep(sp: Space, w: seq<nat>, j: nat, a: nat, global: bool, m: Store, s: Slot)
    requires sp.vmode.Paged? && j < |w| && VTableAt(sp, w, j, m) == Some(a)
    requires VReachFrom(sp, w, j, a, global, m).0.VLeaf? && VReachFrom(sp, w, j, a, global, m).1 == m
    requires s in VFootFrom(sp, w, j, a, m) && NotSecondStage(sp, m, s)
    ensures HostEntry(sp, w, j, a, m).Some?
    ensures s != HostEntry(sp, w, j, a, m).value ==>
              var p := Fetch(m, HostEntry(sp, w, j, a, m).value);
              && 0 < j && VTableAt(sp, w, j - 1, m) == Some(p.PPN * PAGE_SIZE)
              && VReachFrom(sp, w, j - 1, p.PPN * PAGE_SIZE, global || p.G, m).0.VLeaf?
              && VReachFrom(sp, w, j - 1, p.PPN * PAGE_SIZE, global || p.G, m).1 == m
              && s in VFootFrom(sp, w, j - 1, p.PPN * PAGE_SIZE, m)
  {
    var entry := EntrySlot(sp.vmode.format, w, j, a).addr;
    FirstStepUnchanged(sp, w, j, a, global, m);
    NotItsSecondStage(sp, entry, m, s);
    hide GWalk, GFoot, Malformed, BadPointer, Fetch, Pow2, EntrySlot, NotSecondStage;
  }

  lemma NotItsSecondStage(sp: Space, gpa: nat, m: Store, s: Slot)
    requires GDone(sp, IMPLICIT, gpa, m) && NotSecondStage(sp, m, s)
    ensures s !in GFoot(sp, gpa, m)
  {
    hide GReach, GFoot;
  }

  /** Canonical addresses are told apart by the table indices. */
  lemma {:induction false} CanonicalToldApart(f: Format, x: U64, y: U64, level: nat)
    requires level < f.Levels() && Canonical(f, x) && Canonical(f, y)
    requires IndicesAgree(Indices(f, 0, x), Indices(f, 0, y), level)
    ensures SameBlock(x, y, f.Shift(level))
    decreases f.Levels() - level
  {
    assert Indices(f, 0, x)[level] == Indices(f, 0, y)[level];
    assert Vpn(f, 0, level, x) == Vpn(f, 0, level, y);
    var a, b := Shr(x, f.Shift(level)), Shr(y, f.Shift(level));
    if level == f.Levels() - 1 {
      RootToldApart(f, x, y);
    } else {
      CanonicalToldApart(f, x, y, level + 1);
      ShrShr(x, f.Shift(level), f.IndexBits());
      ShrShr(y, f.Shift(level), f.IndexBits());
      SpliceUnique(a, b, b, f.IndexBits());
      SpliceUnique(b, b, b, f.IndexBits());
    }
  }

  lemma RootToldApart(f: Format, x: U64, y: U64)
    requires Canonical(f, x) && Canonical(f, y) && Vpn(f, 0, f.Levels() - 1, x) == Vpn(f, 0, f.Levels() - 1, y)
    ensures SameBlock(x, y, f.Shift(f.Levels() - 1))
  {
    var k := f.Shift(f.Levels() - 1);
    var a, b := Shr(x, k), Shr(y, k);
    hide Low, Shr, Pow2;
    if f.Sv32? {
      HighField(x);
      HighField(y);
    } else {
      SignHalves(f, x);
      SignHalves(f, y);
      ShrShr(x, k, 8);
      ShrShr(y, k, 8);
      OnesAreOdd(64 - SignBits(f));
      SignExtended(a, b, Pow2(64 - SignBits(f)) - 1);
    }
  }

  lemma HighField(x: nat)
    requires x < 0x1_0000_0000
    ensures Low(Shr(x, 22), 10) == Shr(x, 22)
  {
    hide Low, Shr, Pow2;
    Pow2Of64();
    ShrShr(x, 22, 10);
    ShrZero(x, 32);
    ShrZero(Shr(x, 22), 10);
  }

  lemma SignExtended(a: nat, b: nat, ones: nat)
    requires Low(a, 9) == Low(b, 9) && ones % 2 == 1
    requires (Shr(a, 8) == 0 || Shr(a, 8) == ones) && (Shr(b, 8) == 0 || Shr(b, 8) == ones)
    ensures a == b
  {
    hide Low, Shr, Splice;
    SignBit(a);
    SignBit(b);
    LowLow(a, 8, 9);
    LowLow(b, 8, 9);
    SpliceUnique(a, b, b, 8);
    SpliceUnique(b, b, b, 8);
  }

  /** The bits from the sign bit up are all zeros or all ones. */
  lemma SignHalves(f: Format, x: U64)
    requires Canonical(f, x) && !f.Sv32?
    ensures Shr(x, SignBits(f)) == 0 || Shr(x, SignBits(f)) == Pow2(64 - SignBits(f)) - 1
  {
    var k := SignBits(f);
    hide Shr, Pow2;
    Pow2Of64();
    SignWidths();
    ShrZero(x, k);
    TopBits(x, k, 64);
  }

  lemma SignBit(a: nat)
    ensures Shr(Low(a, 9), 8) == Shr(a, 8) % 2
  {
    ShrOfLow(a, 9, 8);
    hide Low, Shr;
    LowIsRemainder(Shr(a, 8), 1);
    assert Pow2(1) == 2;
  }

  lemma OnesAreOdd(n: nat)
    requires n > 0
    ensures (Pow2(n) - 1) % 2 == 1
  {
  }

  lemma FirstStageReaders(sp: Space, x: U64, y: U64, m: Store, s: Slot)
    requires sp.vmode.Paged? && FirstStageTree(sp, m) && NotSecondStage(sp, m, s)
    requires VReach(sp, x, m).0.VLeaf? && VReach(sp, x, m).1 == m && VReach(sp, y, m).0.VLeaf? && VReach(sp, y, m).1 == m
    requires s == Slot(VReach(sp, x, m).0.addr, sp.vmode.format.PteSize()) && s in VFoot(sp, y, m)
    ensures VReach(sp, x, m).0.level < sp.vmode.format.Levels() && SameBlock(x, y, sp.vmode.format.Shift(VReach(sp, x, m).0.level))
  {
    hide VReachFrom, VFootFrom, Indices, SameBlock, IndicesAgree, NotSecondStage, VComes, VEntryAt;
    var f := sp.vmode.format;
    var v, w, top := Indices(f, 0, x), Indices(f, 0, y), f.Levels() - 1;
    FirstStageIndices(f, x);
    FirstStageIndices(f, y);
    assert VTableAt(sp, v, top, m) == Some(sp.vppn * PAGE_SIZE) == VTableAt(sp, w, top, m);
    VEndsAtEntry(sp, v, top, sp.vppn * PAGE_SIZE, false, m);
    var k := VFootOnPath(sp, w, top, sp.vppn * PAGE_SIZE, false, m, s);
    assert VReadApart(sp, v, VReach(sp, x, m).0.level, w, k, m);
    CanonicalToldApart(f, x, y, VReach(sp, x, m).0.level);
  }

  /** Without a second stage no walk of the first changes memory, and there are no second-stage entries. */
  lemma {:induction false} BareSearch(sp: Space, vpn: seq<nat>, i: nat, a: nat, global: bool, m: Store)
    requires sp.gmode.Bare? && sp.vmode.Paged? && i < |vpn|
    ensures VReachFrom(sp, vpn, i, a, global, m).1 == m
    decreases i
  {
    hide Malformed, BadPointer, Fetch, Pow2, EntrySlot, Splice;
    var g := GWalk(sp, IMPLICIT, EntrySlot(sp.vmode.format, vpn, i, a).addr, m).0;
    if i > 0 && g.GOk? {
      var p := Fetch(m, Slot(g.pa, sp.vmode.format.PteSize()));
      BareSearch(sp, vpn, i - 1, p.PPN * PAGE_SIZE, global || p.G, m);
    }
  }

  lemma WithoutSecondStage(sp: Space, iova: U64, m: Store, s: Slot)
    requires sp.gmode.Bare?
    ensures VReach(sp, iova, m).1 == m && NotSecondStage(sp, m, s)
  {
    hide VReachFrom;
    if sp.vmode.Paged? {
      var f := sp.vmode.format;
      BareSearch(sp, Indices(f, 0, iova), f.Levels() - 1, sp.vppn * PAGE_SIZE, false, m);
    }
  }

  /** IOTINVAL.VMA with AV=1 for the page of 2^lg bytes at `iova`, of one process or of all. */
  function VmaPage(t: Tag, byProcess: bool, iova: U64, lg: nat): Command
    requires 12 <= lg <= 48
  {
    CodedPageNumber(iova, lg);
    Vma(Inval(t.gv, true, byProcess, t.gscid, t.pscid, Coded(iova, lg), lg > 12))
  }

  /** Whatever a leaf of a process's first stage is replaced by, IOTINVAL.VMA for its page alone covers
      the edit, if the tables form a tree and no one else reads the leaf; in a VM, if moreover the walk to the
      leaf is finished and the leaf is no second-stage entry. The command may name the process if the mapping
      is not global. */
  lemma ProcessLeafEditIsCovered(spaces: map<Tag, Space>, m: Store, t: Tag, iova: U64, byProcess: bool, p: Pte)
    requires ValidSpaces(spaces) && t in spaces && t.pscv
    requires FirstStageTree(spaces[t], m) && VReach(spaces[t], iova, m).0.VLeaf?
    requires var s := Slot(VReach(spaces[t], iova, m).0.addr, spaces[t].vmode.format.PteSize());
             ReadOnlyBy(spaces, m, s, {t}) && (t.gv ==> VReach(spaces[t], iova, m).1 == m && NotSecondStage(spaces[t], m, s))
    requires byProcess ==> !LeafGlobal(spaces[t], iova, m)
    ensures var (f, r) := (spaces[t].vmode.format, VReach(spaces[t], iova, m).0);
            && r.level < f.Levels()
            && Covered(spaces, m, map[Slot(r.addr, f.PteSize()) := p], VmaPage(t, byProcess, iova, f.Shift(r.level)))
  {
    var sp := spaces[t];
    var f, r := sp.vmode.format, VReach(sp, iova, m).0;
    VLevelBound(sp, iova, m);
    var s := Slot(r.addr, f.PteSize());
    if !t.gv { WithoutSecondStage(sp, iova, m, s); }
    hide VmaPage, Footprint, Finished, LeafGlobal, VReach, FirstStageTree, NotSecondStage, ValidSpace;
    forall t', x: U64 | t' in spaces && Finished(spaces[t'], x, m) && s in Footprint(spaces[t'], x, m)
      ensures Names(VmaPage(t, byProcess, iova, f.Shift(r.level)), t', x / PAGE_SIZE, LeafGlobal(spaces[t'], x, m))
    {
      assert t' in {t};
      ProcessReaders(sp, iova, x, m, s);
      ProcessNames(t, byProcess, iova, f.Shift(r.level), x, LeafGlobal(sp, x, m));
    }
  }

  lemma ProcessReaders(sp: Space, x: U64, y: U64, m: Store, s: Slot)
    requires sp.vmode.Paged? && FirstStageTree(sp, m) && NotSecondStage(sp, m, s)
    requires VReach(sp, x, m).0.VLeaf? && VReach(sp, x, m).1 == m && Finished(sp, y, m)
    requires s == Slot(VReach(sp, x, m).0.addr, sp.vmode.format.PteSize()) && s in Footprint(sp, y, m)
    ensures VReach(sp, x, m).0.level < sp.vmode.format.Levels() && SameBlock(x, y, sp.vmode.format.Shift(VReach(sp, x, m).0.level))
    ensures LeafGlobal(sp, y, m) == LeafGlobal(sp, x, m)
  {
    hide VFoot, GFoot, GReach, WellAligned, SameBlock, FirstStageTree, VReachFrom, Splice;
    assert s in VFoot(sp, y, m);
    FirstStageReaders(sp, x, y, m, s);
    VReachInBlock(sp, x, y, sp.vmode.format.Shift(VReach(sp, x, m).0.level), m);
  }

  lemma ProcessNames(t: Tag, byProcess: bool, iova: U64, lg: nat, x: U64, global: bool)
    requires 12 <= lg <= 48 && t.pscv && SameBlock(iova, x, lg) && (byProcess ==> !global)
    ensures Names(VmaPage(t, byProcess, iova, lg), t, x / PAGE_SIZE, global)
  {
    hide Coded, InRange, SameBlock;
    CodedRoundTrip(iova, lg);
    BlockSymmetric(iova, x, lg);
  }

  /** Such a command leaves the entries of other pages in the IOTLB. */
  lemma OtherPagesStay(t: Tag, byProcess: bool, iova: U64, lg: nat, tlb: seq<TlbEntry>, i: nat)
    requires 12 <= lg <= 48 && i < |tlb| && (forall x: nat | SameBlock(x, iova, lg) :: !Holds(tlb[i], x))
    ensures Swept(VmaPage(t, byProcess, iova, lg), tlb)[i] == tlb[i]
  {
    hide Coded, SameBlock, MatchAddressRange, InRange, VmaSwept;
    CodedRoundTrip(iova, lg);
    var c := VmaPage(t, byProcess, iova, lg).c;
    MatchIffRangesMeet(c.addr, c.s, tlb[i].vpn, tlb[i].s);
    forall page: nat | InRange(page, c.addr, c.s) ensures !InRange(page, tlb[i].vpn, tlb[i].s) {
      assert page * PAGE_SIZE / PAGE_SIZE == page;
      HoldsRange(tlb[i], page * PAGE_SIZE);
    }
  }
}
