/** First-stage tables as tables in guest memory: what the search for a leaf finds is decided where it ends,
    whatever bits its second-stage walks set on the way. */
module FirstStageTables {
  import opened Bits
  import opened Common
  import opened PageTables
  import opened SecondStage
  import opened TwoStage
  import opened AdUpdates
  import opened Superpages
  import opened HostPages
  import G = GuestTrees
  import T = TableBuilder
  import C = CoveredEdits

  // ---------------------------------------------------------------- the view

  /** The word of the first stage at an address. */
  function WordAt(sp: Space, m: Store, h: nat): Pte
    requires sp.vmode.Paged?
  {
    Fetch(m, Slot(h, sp.vmode.format.PteSize()))
  }

  function CellOf(sp: Space, m: Store, h: nat): G.Cell
    requires sp.vmode.Paged?
  {
    var p := WordAt(sp, m, h);
    if h >= Pow2(sp.pas) || !LoadStatus(m, h).Okay? then G.Other
    else if p == ZERO_PTE then G.Empty
    else if T.Pointer(sp, p) then G.Pointer(p.PPN)
    else G.Other
  }

  predicate Open(sp: Space, m: Store, h: nat) { h < Pow2(sp.pas) && LoadStatus(m, h).Okay? && StoreStatus(m, h).Okay? }

  /** The first stage under the second; the builder finds a page if the second stage is Bare, or maps it plainly. */
  function Look(sp: Space, m: Store): G.View
    requires sp.vmode.Paged?
  {
    G.View(sp.vmode.format.Levels(), sp.vppn, (gpa: nat) => Host(sp, IMPLICIT, gpa, m), (h: nat) => CellOf(sp, m, h),
           (h: nat) => Open(sp, m, h), (page: nat) => sp.gmode.Bare? || Plain(sp, IMPLICIT, page, m))
  }

  /** Where the entries are in their tables. */
  function Offsets(f: Format, vpn: seq<nat>): (v: seq<nat>)
    ensures |v| == |vpn|
  {
    seq(|vpn|, i requires 0 <= i < |vpn| => Offset(f, vpn[i]))
  }

  function Offset(f: Format, index: nat): nat { index * f.PteSize() }

  /** The path of a canonical address. */
  function PathOf(sp: Space, iova: nat): (v: seq<nat>)
    requires sp.vmode.Paged?
    ensures |v| == sp.vmode.format.Levels()
  {
    Offsets(sp.vmode.format, Indices(sp.vmode.format, 0, iova))
  }

  lemma PathInPages(sp: Space, iova: nat, m: Store)
    requires sp.vmode.Paged?
    ensures G.IsPath(Look(sp, m), PathOf(sp, iova))
  {
    FirstStageIndices(sp.vmode.format, iova);
    hide Indices;
  }

  /** No word of the first stage is an entry of the second. */
  predicate WordApart(sp: Space, m: Store, v: seq<nat>, i: nat, w: seq<nat>, j: nat)
    requires sp.vmode.Paged?
  {
    G.Comes(Look(sp, m), v, i) && T.Comes(sp, w, j, m) ==> G.ReadAt(Look(sp, m), v, i) != T.EntryAt(sp, w, j, m).addr
  }

  ghost predicate Apart(sp: Space, m: Store)
    requires sp.vmode.Paged?
  {
    forall v, i, w, j :: WordApart(sp, m, v, i, w, j)
  }

  // ---------------------------------------------------------------- what a search finds, memory aside

  /** One step of the search: it ends, or goes on in the table at `a`. */
  datatype Step = Ended(r: VReached) | On(a: nat, global: bool)

  function StepOf(sp: Space, i: nat, g: GResult, p: Pte, faults: Store, a: nat, global: bool): Step {
    if g.GErr? then Ended(VStop(OfGFault(g.fault, a)))
    else if g.pa >= Pow2(sp.pas) then Ended(VStop(WalkAccessFault))
    else match LoadStatus(faults, g.pa)
      case AccessFault => Ended(VStop(WalkAccessFault))
      case DataCorruption => Ended(VStop(WalkCorruption))
      case Okay =>
        if Malformed(sp, p) || (i != 0 && p.N) then Ended(VStop(PageFault))
        else if IsLeaf(p) then Ended(VLeaf(g.pa, p, i, global, g.pte.W, a))
        else if BadPointer(p) || i == 0 then Ended(VStop(PageFault))
        else On(p.PPN * PAGE_SIZE, global || p.G)
  }

  function StepAt(sp: Space, i: nat, gpa: nat, a: nat, global: bool, m: Store): Step
    requires sp.vmode.Paged?
  {
    var g := GWalk(sp, IMPLICIT, gpa, m).0;
    StepOf(sp, i, g, if g.GOk? then WordAt(sp, m, g.pa) else ZERO_PTE, m, a, global)
  }

  /** `VReachFrom` with every second-stage walk and load made in the same memory */
  function Search(sp: Space, vpn: seq<nat>, i: nat, a: nat, global: bool, m: Store): VReached
    requires sp.vmode.Paged? && i < |vpn|
    decreases i
  {
    match StepAt(sp, i, EntrySlot(sp.vmode.format, vpn, i, a).addr, a, global, m)
    case Ended(r) => r
    case On(b, global') => if i == 0 then VStop(PageFault) else Search(sp, vpn, i - 1, b, global', m)
  }

  /** A leaf that a second-stage walk comes to is an entry on its path. */
  lemma {:induction false} LeafIsEntry(sp: Space, w: seq<nat>, j: nat, m: Store)
    requires T.Comes(sp, w, j, m) && GReachFrom(sp, w, j, T.TableAt(sp, w, j, m).value, m).GLeaf?
    ensures var r := GReachFrom(sp, w, j, T.TableAt(sp, w, j, m).value, m);
            T.Comes(sp, w, r.level, m) && T.EntryAt(sp, w, r.level, m).addr == r.addr
    decreases j
  {
    hide Malformed, BadPointer, Fetch, Pow2, InTable;
    if !IsLeaf(Fetch(m, T.EntryAt(sp, w, j, m))) { LeafIsEntry(sp, w, j - 1, m); }
  }

  /** Second-stage walks leave the words of the first stage alone. */
  lemma WordStays(sp: Space, v: seq<nat>, i: nat, m: Store, n: Store)
    requires ValidSpace(sp) && sp.vmode.Paged? && Apart(sp, m) && Marked(sp, m, n) && G.Comes(Look(sp, m), v, i)
    ensures WordAt(sp, n, G.ReadAt(Look(sp, m), v, i)) == WordAt(sp, m, G.ReadAt(Look(sp, m), v, i))
  {
    hide G.TableAt, GReachFrom, GWalk, ValidSpace, Fetch, Look;
    var s := Slot(G.ReadAt(Look(sp, m), v, i), sp.vmode.format.PteSize());
    if Fetch(n, s) != Fetch(m, s) {
      var gpa :| AtLeaf(sp, gpa, m, s);
      T.PathForTable(sp, gpa);
      T.WalkOfPath(sp, gpa, m);
      var w, top := T.Path(sp, gpa), sp.gmode.format.Levels() - 1;
      LeafIsEntry(sp, w, top, m);
      ApartAt(sp, m, v, i, w, GReach(sp, gpa, m).level);
    }
  }

  lemma ApartAt(sp: Space, m: Store, v: seq<nat>, i: nat, w: seq<nat>, j: nat)
    requires sp.vmode.Paged? && Apart(sp, m) && G.Comes(Look(sp, m), v, i) && T.Comes(sp, w, j, m)
    ensures G.ReadAt(Look(sp, m), v, i) != T.EntryAt(sp, w, j, m).addr
  {
    assert WordApart(sp, m, v, i, w, j);
  }

  lemma ReachSteps(sp: Space, vpn: seq<nat>, i: nat, a: nat, global: bool, m: Store)
    requires sp.vmode.Paged? && i < |vpn|
    ensures var (g, o) := GWalk(sp, IMPLICIT, EntrySlot(sp.vmode.format, vpn, i, a).addr, m);
            VReachFrom(sp, vpn, i, a, global, m).0 ==
              match StepOf(sp, i, g, if g.GOk? then WordAt(sp, o, g.pa) else ZERO_PTE, o, a, global)
              case Ended(r) => r
              case On(b, global') => if i == 0 then VStop(PageFault) else VReachFrom(sp, vpn, i - 1, b, global', o).0
  {
    hide GWalk, Malformed, BadPointer, Fetch, Pow2, EntrySlot;
    var (g, o) := GWalk(sp, IMPLICIT, EntrySlot(sp.vmode.format, vpn, i, a).addr, m);
    if g.GOk? { assert WordAt(sp, o, g.pa) == Fetch(o, Slot(g.pa, sp.vmode.format.PteSize())); }
  }

  /** The search goes on just where there is a pointer. */
  lemma StepIsOn(sp: Space, v: seq<nat>, i: nat, global: bool, m: Store)
    requires sp.vmode.Paged? && G.Has(Look(sp, m), v, i)
    ensures var (w, a) := (Look(sp, m), G.TableAt(Look(sp, m), v, i).value * PAGE_SIZE);
            var s := StepAt(sp, i, G.EntryAt(w, v, i), a, global, m);
            s.On? <==> !G.Ends(w, v, i)
    ensures var (w, a) := (Look(sp, m), G.TableAt(Look(sp, m), v, i).value * PAGE_SIZE);
            var s := StepAt(sp, i, G.EntryAt(w, v, i), a, global, m);
            s.On? ==>
              && G.Has(w, v, i - 1) && s.a == G.TableAt(w, v, i - 1).value * PAGE_SIZE
              && s.global == (global || WordAt(sp, m, G.ReadAt(w, v, i)).G)
  {
    hide GWalk, BadPointer, Fetch, Pow2, EntrySlot;
  }

  /** The bits that a search sets on its way do not change what it finds. */
  lemma {:induction false} SearchIsStatic(sp: Space, vpn: seq<nat>, i: nat, global: bool, m: Store, n: Store)
    requires ValidSpace(sp) && sp.vmode.Paged? && Apart(sp, m) && Marked(sp, m, n) && G.Has(Look(sp, m), Offsets(sp.vmode.format, vpn), i)
    ensures var a := G.TableAt(Look(sp, m), Offsets(sp.vmode.format, vpn), i).value * PAGE_SIZE;
            VReachFrom(sp, vpn, i, a, global, n).0 == Search(sp, vpn, i, a, global, m)
    decreases i
  {
    hide G.TableAt, VReachFrom, Marked, ValidSpace, Apart, StepAt;
    var v := Offsets(sp.vmode.format, vpn);
    var a := G.TableAt(Look(sp, m), v, i).value * PAGE_SIZE;
    ReachSteps(sp, vpn, i, a, global, n);
    StepIsOn(sp, v, i, global, m);
    StepIsStatic(sp, v, i, global, m, n);
    assert EntrySlot(sp.vmode.format, vpn, i, a).addr == G.EntryAt(Look(sp, m), v, i);
    var s := StepAt(sp, i, G.EntryAt(Look(sp, m), v, i), a, global, m);
    if s.On? { SearchIsStatic(sp, vpn, i - 1, s.global, m, GWalk(sp, IMPLICIT, G.EntryAt(Look(sp, m), v, i), n).1); }
  }

  lemma StepIsStatic(sp: Space, v: seq<nat>, i: nat, global: bool, m: Store, n: Store)
    requires ValidSpace(sp) && sp.vmode.Paged? && Apart(sp, m) && Marked(sp, m, n) && G.Has(Look(sp, m), v, i)
    ensures var (a, gpa) := (G.TableAt(Look(sp, m), v, i).value * PAGE_SIZE, G.EntryAt(Look(sp, m), v, i));
            var (g, o) := GWalk(sp, IMPLICIT, gpa, n);
            && Marked(sp, m, o)
            && StepOf(sp, i, g, if g.GOk? then WordAt(sp, o, g.pa) else ZERO_PTE, o, a, global) == StepAt(sp, i, gpa, a, global, m)
  {
    hide GWalk, Marked, ValidSpace, Apart, WordAt, G.TableAt, Malformed, BadPointer, Pow2, OfGFault;
    var gpa := G.EntryAt(Look(sp, m), v, i);
    WalkIsStatic(sp, IMPLICIT, gpa, m, n);
    var (g, o) := GWalk(sp, IMPLICIT, gpa, n);
    FaultsOf(sp, m, o);
    if g.GOk? { WordStays(sp, v, i, m, o); }
  }

  lemma FaultsOf(sp: Space, m: Store, n: Store)
    requires Marked(sp, m, n)
    ensures SameFaults(m, n)
  {
  }

  function Found(sp: Space, iova: nat, m: Store): VReached
    requires sp.vmode.Paged?
  {
    Search(sp, Indices(sp.vmode.format, 0, iova), sp.vmode.format.Levels() - 1, sp.vppn * PAGE_SIZE, false, m)
  }

  lemma ReachIsFound(sp: Space, iova: nat, m: Store)
    requires ValidSpace(sp) && sp.vmode.Paged? && Apart(sp, m)
    ensures VReach(sp, iova, m).0 == if Canonical(sp.vmode.format, iova) then Found(sp, iova, m) else VStop(PageFault)
  {
    hide ValidSpace, Apart, Look, VReachFrom, Search, Indices;
    assert Marked(sp, m, m);
    RootOf(sp, iova, m);
    SearchIsStatic(sp, Indices(sp.vmode.format, 0, iova), sp.vmode.format.Levels() - 1, false, m, m);
  }

  lemma RootOf(sp: Space, iova: nat, m: Store)
    requires sp.vmode.Paged?
    ensures var (w, v, top) := (Look(sp, m), PathOf(sp, iova), sp.vmode.format.Levels() - 1);
            w.levels == top + 1 && G.Has(w, v, top) && G.TableAt(w, v, top) == Some(sp.vppn)
  {
    PathInPages(sp, iova, m);
  }

  // ---------------------------------------------------------------- where it ends

  /** The G bits of the entries that `v` reads above level `i`. */
  function GlobalAbove(sp: Space, m: Store, v: seq<nat>, i: nat): bool
    requires sp.vmode.Paged? && G.Has(Look(sp, m), v, i)
    decreases sp.vmode.format.Levels() - i
  {
    i < sp.vmode.format.Levels() - 1 && (GlobalAbove(sp, m, v, i + 1) || WordAt(sp, m, G.ReadAt(Look(sp, m), v, i + 1)).G)
  }

  /** The search goes on from the table it has come to. */
  lemma {:induction false} SearchComes(sp: Space, iova: nat, i: nat, m: Store)
    requires sp.vmode.Paged? && G.Has(Look(sp, m), PathOf(sp, iova), i)
    ensures var (w, v) := (Look(sp, m), PathOf(sp, iova));
            Found(sp, iova, m) ==
              Search(sp, Indices(sp.vmode.format, 0, iova), i, G.TableAt(w, v, i).value * PAGE_SIZE, GlobalAbove(sp, m, v, i), m)
    decreases sp.vmode.format.Levels() - i
  {
    hide StepAt, Indices, Look, CellOf;
    var w, v := Look(sp, m), PathOf(sp, iova);
    RootOf(sp, iova, m);
    if i < sp.vmode.format.Levels() - 1 {
      SearchComes(sp, iova, i + 1, m);
      StepIsOn(sp, v, i + 1, GlobalAbove(sp, m, v, i + 1), m);
    }
  }

  /** What a search finds where it ends */
  lemma EndStops(sp: Space, iova: nat, d: nat, m: Store)
    requires sp.vmode.Paged? && G.Ends(Look(sp, m), PathOf(sp, iova), d)
    ensures var (w, v) := (Look(sp, m), PathOf(sp, iova));
            Ended(Found(sp, iova, m)) ==
              StepAt(sp, d, G.EntryAt(w, v, d), G.TableAt(w, v, d).value * PAGE_SIZE, GlobalAbove(sp, m, v, d), m)
  {
    hide StepAt, Indices, G.TableAt, GlobalAbove, Found;
    SearchComes(sp, iova, d, m);
    StepIsOn(sp, PathOf(sp, iova), d, GlobalAbove(sp, m, PathOf(sp, iova), d), m);
  }

  /** A search that ends at an empty entry is a page fault. */
  lemma EmptyStops(sp: Space, iova: nat, d: nat, m: Store)
    requires sp.vmode.Paged? && G.Comes(Look(sp, m), PathOf(sp, iova), d)
             && Look(sp, m).cell(G.ReadAt(Look(sp, m), PathOf(sp, iova), d)).Empty?
    ensures Found(sp, iova, m) == VStop(PageFault)
  {
    EndStops(sp, iova, d, m);
    hide GWalk, Pow2, BadPointer, Fetch, Indices, G.TableAt, GlobalAbove, Found;
  }

  // ---------------------------------------------------------------- changing one word

  predicate WordKept(sp: Space, m: Store, n: Store, at: nat, v: seq<nat>, i: nat)
    requires sp.vmode.Paged?
  {
    G.Comes(Look(sp, m), v, i) && G.ReadAt(Look(sp, m), v, i) != at ==>
      WordAt(sp, n, G.ReadAt(Look(sp, m), v, i)) == WordAt(sp, m, G.ReadAt(Look(sp, m), v, i))
  }

  /** Of all that searches in `m` read, `n` differs only in the word at `at`. */
  ghost predicate SameReads(sp: Space, m: Store, n: Store, at: nat, gnext: nat)
    requires sp.vmode.Paged?
  {
    && SameFaults(m, n)
    && (forall gpa: nat | gpa < gnext * PAGE_SIZE :: GWalk(sp, IMPLICIT, gpa, n).0 == GWalk(sp, IMPLICIT, gpa, m).0)
    && forall v, i :: WordKept(sp, m, n, at, v, i)
  }

  ghost predicate Changed(sp: Space, m: Store, n: Store, v: seq<nat>, i: nat, gnext: nat, next: nat)
    requires sp.vmode.Paged?
  {
    var w := Look(sp, m);
    && G.Comes(w, v, i) && G.TreeShaped(w) && G.Allocated(w, gnext, next) && G.Edited(w, Look(sp, n), G.ReadAt(w, v, i), gnext, next)
    && SameReads(sp, m, n, G.ReadAt(w, v, i), gnext)
  }

  lemma {:induction false} GlobalElsewhere(sp: Space, m: Store, n: Store, v: seq<nat>, i: nat, x: seq<nat>, j: nat, gnext: nat, next: nat)
    requires sp.vmode.Paged? && Changed(sp, m, n, v, i, gnext, next) && G.Has(Look(sp, m), x, j) && (j >= i || !IndicesAgree(v, x, i))
    ensures G.Has(Look(sp, n), x, j) && GlobalAbove(sp, n, x, j) == GlobalAbove(sp, m, x, j)
    decreases sp.vmode.format.Levels() - j
  {
    hide Look, WordAt, IndicesAgree, G.TreeShaped, G.Allocated, G.TableAt, G.Edited;
    LooksLevels(sp, m);
    KeptAt(sp, m, n, v, i, x, j, gnext, next);
    if j < sp.vmode.format.Levels() - 1 {
      G.HasAbove(Look(sp, m), x, j);
      KeptAt(sp, m, n, v, i, x, j + 1, gnext, next);
      GlobalElsewhere(sp, m, n, v, i, x, j + 1, gnext, next);
    }
  }

  lemma KeptAt(sp: Space, m: Store, n: Store, v: seq<nat>, i: nat, x: seq<nat>, j: nat, gnext: nat, next: nat)
    requires sp.vmode.Paged? && Changed(sp, m, n, v, i, gnext, next) && G.Has(Look(sp, m), x, j) && (j >= i || !IndicesAgree(v, x, i))
    ensures G.Has(Look(sp, n), x, j) && G.TableAt(Look(sp, n), x, j) == G.TableAt(Look(sp, m), x, j)
    ensures j > i || !IndicesAgree(v, x, i) ==>
              && G.Comes(Look(sp, n), x, j) == G.Comes(Look(sp, m), x, j)
              && (G.Comes(Look(sp, m), x, j) ==>
                    && G.ReadAt(Look(sp, n), x, j) == G.ReadAt(Look(sp, m), x, j)
                    && WordAt(sp, n, G.ReadAt(Look(sp, m), x, j)) == WordAt(sp, m, G.ReadAt(Look(sp, m), x, j)))
  {
    hide Look, WordAt, IndicesAgree, G.TreeShaped, G.Allocated, G.TableAt;
    var w := Look(sp, m);
    G.TableElsewhere(w, Look(sp, n), v, i, x, j, gnext, next);
    if j > i || !IndicesAgree(v, x, i) {
      G.ReadElsewhere(w, Look(sp, n), v, i, x, j, gnext, next);
      assert WordKept(sp, m, n, G.ReadAt(w, v, i), x, j);
    }
  }

  lemma LooksLevels(sp: Space, m: Store)
    requires sp.vmode.Paged?
    ensures Look(sp, m).levels == sp.vmode.format.Levels()
  {
  }

  /** Searches that do not agree with `v` down to the changed word find what they found. */
  lemma SearchElsewhere(sp: Space, m: Store, n: Store, v: seq<nat>, i: nat, gnext: nat, next: nat, iova: nat)
    requires sp.vmode.Paged? && Changed(sp, m, n, v, i, gnext, next) && !IndicesAgree(v, PathOf(sp, iova), i)
    ensures Found(sp, iova, n) == Found(sp, iova, m)
  {
    hide Look, WordAt, IndicesAgree, G.TreeShaped, G.TableAt, PathOf, Found, GWalk, GlobalAbove;
    var w, x, p := Look(sp, m), Look(sp, n), PathOf(sp, iova);
    RootOf(sp, iova, m);
    var d := G.WalkEnds(w, p, sp.vmode.format.Levels() - 1);
    G.ReadElsewhere(w, x, v, i, p, d, gnext, next);
    assert G.Below(w, p, d, gnext, next);
    GlobalElsewhere(sp, m, n, v, i, p, d, gnext, next);
    assert WordKept(sp, m, n, G.ReadAt(w, v, i), p, d);
    EndStops(sp, iova, d, m);
    EndStops(sp, iova, d, n);
    SameStep(sp, p, d, m, n);
  }

  lemma SameStep(sp: Space, v: seq<nat>, d: nat, m: Store, n: Store)
    requires sp.vmode.Paged? && SameFaults(m, n) && G.Has(Look(sp, m), v, d)
    requires GWalk(sp, IMPLICIT, G.EntryAt(Look(sp, m), v, d), n).0 == GWalk(sp, IMPLICIT, G.EntryAt(Look(sp, m), v, d), m).0
    requires G.Comes(Look(sp, m), v, d) ==> WordAt(sp, n, G.ReadAt(Look(sp, m), v, d)) == WordAt(sp, m, G.ReadAt(Look(sp, m), v, d))
    ensures var gpa := G.EntryAt(Look(sp, m), v, d);
            forall a, global :: StepAt(sp, d, gpa, a, global, n) == StepAt(sp, d, gpa, a, global, m)
  {
    hide GWalk, WordAt, G.TableAt, Malformed, BadPointer;
  }

  /** After a link every search finds what it found. */
  lemma LinkKeepsSearches(sp: Space, m: Store, n: Store, v: seq<nat>, i: nat, gnext: nat, next: nat, iova: nat)
    requires sp.vmode.Paged? && G.Links(Look(sp, m), Look(sp, n), v, i, gnext, next)
    requires SameReads(sp, m, n, G.ReadAt(Look(sp, m), v, i), gnext)
    ensures Found(sp, iova, n) == Found(sp, iova, m)
  {
    hide Look, SameReads, IndicesAgree, PathOf, Found, G.TreeShaped, G.Allocated, G.TableAt;
    PathInPages(sp, iova, m);
    if IndicesAgree(v, PathOf(sp, iova), i) {
      G.LinkReaches(Look(sp, m), Look(sp, n), v, i, PathOf(sp, iova), gnext, next);
      G.ReadHere(Look(sp, m), Look(sp, n), v, i, PathOf(sp, iova), gnext, next);
      EmptyStops(sp, iova, i, m);
      EmptyStops(sp, iova, i - 1, n);
    } else {
      SearchElsewhere(sp, m, n, v, i, gnext, next, iova);
    }
  }

  /** The search ends at the leaf. */
  predicate Reaches(r: VReached, at: nat, leaf: Pte, level: nat) { r.VLeaf? && r.addr == at && r.pte == leaf && r.level == level }

  /** Just the searches that agree with `v` down to level `k` find the leaf written there. */
  lemma WriteSearches(sp: Space, m: Store, n: Store, v: seq<nat>, k: nat, leaf: Pte, gnext: nat, next: nat, iova: nat)
    requires sp.vmode.Paged? && G.Writes(Look(sp, m), Look(sp, n), v, k, gnext, next)
    requires SameReads(sp, m, n, G.ReadAt(Look(sp, m), v, k), gnext)
    requires WordAt(sp, n, G.ReadAt(Look(sp, m), v, k)) == leaf && Open(sp, n, G.ReadAt(Look(sp, m), v, k))
    requires !Malformed(sp, leaf) && IsLeaf(leaf) && (k != 0 ==> !leaf.N)
    ensures if IndicesAgree(v, PathOf(sp, iova), k) then Reaches(Found(sp, iova, n), G.ReadAt(Look(sp, m), v, k), leaf, k)
            else Found(sp, iova, n) == Found(sp, iova, m)
  {
    hide Look, SameReads, IndicesAgree, PathOf, Found, G.TreeShaped, G.Allocated, WordAt, G.TableAt;
    PathInPages(sp, iova, m);
    if IndicesAgree(v, PathOf(sp, iova), k) {
      G.WriteEnds(Look(sp, m), Look(sp, n), v, k, PathOf(sp, iova), gnext, next);
      LeafStops(sp, iova, k, n, leaf);
    } else {
      SearchElsewhere(sp, m, n, v, k, gnext, next, iova);
    }
  }

  lemma LeafStops(sp: Space, iova: nat, d: nat, m: Store, leaf: Pte)
    requires sp.vmode.Paged? && G.Ends(Look(sp, m), PathOf(sp, iova), d) && G.Comes(Look(sp, m), PathOf(sp, iova), d)
    requires WordAt(sp, m, G.ReadAt(Look(sp, m), PathOf(sp, iova), d)) == leaf && Open(sp, m, G.ReadAt(Look(sp, m), PathOf(sp, iova), d))
    requires !Malformed(sp, leaf) && IsLeaf(leaf) && (d != 0 ==> !leaf.N)
    ensures Reaches(Found(sp, iova, m), G.ReadAt(Look(sp, m), PathOf(sp, iova), d), leaf, d)
  {
    EndStops(sp, iova, d, m);
    hide GWalk, WordAt, G.TableAt, PathOf, Found, GlobalAbove, Malformed, Pow2;
  }

  // ---------------------------------------------------------------- paths and addresses

  /** Canonical addresses have paths that agree down to a level exactly if they lie in one block of its size. */
  lemma BlockIsPath(sp: Space, x: U64, y: U64, level: nat)
    requires sp.vmode.Paged? && level < sp.vmode.format.Levels() && Canonical(sp.vmode.format, x) && Canonical(sp.vmode.format, y)
    ensures IndicesAgree(PathOf(sp, x), PathOf(sp, y), level) <==> SameBlock(x, y, sp.vmode.format.Shift(level))
  {
    var f := sp.vmode.format;
    hide SameBlock, Canonical;
    SameOffsets(f, Indices(f, 0, x), Indices(f, 0, y), level);
    if SameBlock(x, y, f.Shift(level)) { IndicesInBlock(f, 0, x, y, level, f.Shift(level)); }
    else if IndicesAgree(PathOf(sp, x), PathOf(sp, y), level) { C.CanonicalToldApart(f, x, y, level); }
  }

  lemma SameOffsets(f: Format, v: seq<nat>, w: seq<nat>, level: nat)
    requires |v| == |w|
    ensures IndicesAgree(Offsets(f, v), Offsets(f, w), level) <==> IndicesAgree(v, w, level)
  {
    if IndicesAgree(Offsets(f, v), Offsets(f, w), level) {
      forall j | level <= j < |v| ensures v[j] == w[j] { assert Offsets(f, v)[j] == Offsets(f, w)[j]; }
    }
  }

  // ---------------------------------------------------------------- building, with a second stage or without

  lemma SameCell(sp: Space, m: Store, o: Store, y: seq<nat>, j: nat)
    requires sp.vmode.Paged? && SameFaults(m, o)
    ensures G.Comes(Look(sp, m), y, j) && WordAt(sp, o, G.ReadAt(Look(sp, m), y, j)) == WordAt(sp, m, G.ReadAt(Look(sp, m), y, j)) ==>
              Look(sp, o).cell(G.ReadAt(Look(sp, m), y, j)) == Look(sp, m).cell(G.ReadAt(Look(sp, m), y, j))
  {
    hide Pow2, WordAt, G.TableAt, GWalk;
  }

  ghost predicate SameSearches(sp: Space, m: Store, n: Store)
    requires sp.vmode.Paged?
  {
    forall iova :: Found(sp, iova, n) == Found(sp, iova, m)
  }

  /** Entries can be put wherever they could, but below the one that `v` gets at `level`. */
  ghost predicate StillBuildable(sp: Space, v: seq<nat>, level: nat, m: Store, n: Store)
    requires sp.vmode.Paged?
  {
    forall x, k: nat | G.Buildable(Look(sp, m), x, k) && !G.CutsOff(v, level, x, k) :: G.Buildable(Look(sp, n), x, k)
  }

  lemma AgreeSelf(v: seq<nat>, i: nat)
    ensures IndicesAgree(v, v, i)
  {
  }

  predicate NewLeaf(sp: Space, p: Pte, level: nat)
    requires sp.vmode.Paged?
  {
    !Malformed(sp, p) && IsLeaf(p) && (level != 0 ==> !p.N) && Narrow(p, sp.vmode.format.PteSize()) == p
  }

  function LeafStore(sp: Space, h: nat, leaf: Pte, m: Store): Store
    requires sp.vmode.Paged?
  {
    Put(m, Slot(h, sp.vmode.format.PteSize()), leaf)
  }

  lemma OpenIsStorable(sp: Space, m: Store, v: seq<nat>, i: nat)
    requires sp.vmode.Paged? && G.Comes(Look(sp, m), v, i) && Look(sp, m).open(G.ReadAt(Look(sp, m), v, i))
    ensures LoadStatus(m, G.ReadAt(Look(sp, m), v, i)).Okay? && StoreStatus(m, G.ReadAt(Look(sp, m), v, i)).Okay?
  {
    hide G.TableAt;
  }

  lemma EmptyIsZero(sp: Space, m: Store, v: seq<nat>, i: nat)
    requires sp.vmode.Paged? && G.Comes(Look(sp, m), v, i) && Look(sp, m).cell(G.ReadAt(Look(sp, m), v, i)).Empty?
    ensures WordAt(sp, m, G.ReadAt(Look(sp, m), v, i)) == ZERO_PTE
  {
    hide G.TableAt, GWalk;
  }

  /** An entry can be put at level `k` for the address. */
  predicate CanPlace(sp: Space, iova: nat, k: nat, m: Store)
    requires sp.vmode.Paged?
  {
    G.Buildable(Look(sp, m), PathOf(sp, iova), k)
  }

  lemma CanPlaceMeans(sp: Space, iova: nat, k: nat, m: Store)
    requires sp.vmode.Paged?
    ensures CanPlace(sp, iova, k, m) == G.Buildable(Look(sp, m), PathOf(sp, iova), k)
  {
  }

  lemma PathIsOffsets(sp: Space, iova: nat)
    requires sp.vmode.Paged?
    ensures PathOf(sp, iova) == Offsets(sp.vmode.format, Indices(sp.vmode.format, 0, iova))
  {
  }

  datatype Mapping = Mapping(iova: U64, level: nat, leaf: Pte)

  predicate Maps(sp: Space, e: Mapping, x: nat)
    requires sp.vmode.Paged?
  {
    Canonical(sp.vmode.format, x) && SameBlock(e.iova, x, sp.vmode.format.Shift(e.level))
  }

  /** The mapping last made for the address. */
  function LastFor(sp: Space, maps: seq<Mapping>, x: nat): Option<Mapping>
    requires sp.vmode.Paged?
  {
    if maps == [] then None
    else
      var later := LastFor(sp, maps[1..], x);
      if later.Some? then later else if Maps(sp, maps[0], x) then Some(maps[0]) else None
  }

  /** No mapping is made below the leaf of an earlier one. */
  predicate NoneCutOff(sp: Space, maps: seq<Mapping>)
    requires sp.vmode.Paged?
  {
    forall i, j | 0 <= i < j < |maps| :: !(maps[j].level < maps[i].level && Maps(sp, maps[i], maps[j].iova))
  }

  predicate MayPlace(sp: Space, e: Mapping, m: Store)
    requires sp.vmode.Paged?
  {
    Canonical(sp.vmode.format, e.iova) && e.level < sp.vmode.format.Levels() && NewLeaf(sp, e.leaf, e.level)
    && CanPlace(sp, e.iova, e.level, m)
  }

  predicate ReachesLeaf(r: VReached, e: Mapping) { r.VLeaf? && r.pte == e.leaf && r.level == e.level }

  /** Just the searches that agree with `v` down to `level` find the leaf at `at`, the others find what they found. */
  ghost predicate Updated(sp: Space, m: Store, v: seq<nat>, level: nat, leaf: Pte, at: nat, o: Store)
    requires sp.vmode.Paged?
  {
    && StillBuildable(sp, v, level, m, o)
    && forall iova ::
         if IndicesAgree(v, PathOf(sp, iova), level) then Reaches(Found(sp, iova, o), at, leaf, level)
         else Found(sp, iova, o) == Found(sp, iova, m)
  }

  lemma UpdatedBefore(sp: Space, m: Store, n: Store, v: seq<nat>, level: nat, leaf: Pte, at: nat, o: Store)
    requires sp.vmode.Paged? && StillBuildable(sp, v, level, m, n) && SameSearches(sp, m, n) && Updated(sp, n, v, level, leaf, at, o)
    ensures Updated(sp, m, v, level, leaf, at, o)
  {
    hide Look, Found, G.Buildable, Reaches, PathOf, IndicesAgree;
  }

  /** Writing a leaf is such an update. */
  lemma WriteUpdates(sp: Space, m: Store, v: seq<nat>, level: nat, leaf: Pte, gnext: nat, next: nat)
    requires sp.vmode.Paged? && G.Comes(Look(sp, m), v, level) && NewLeaf(sp, leaf, level)
    requires var (h, o) := (G.ReadAt(Look(sp, m), v, level), LeafStore(sp, G.ReadAt(Look(sp, m), v, level), leaf, m));
             G.Writes(Look(sp, m), Look(sp, o), v, level, gnext, next) && SameReads(sp, m, o, h, gnext) && WordAt(sp, o, h) == leaf
             && Open(sp, o, h)
    ensures var (h, o) := (G.ReadAt(Look(sp, m), v, level), LeafStore(sp, G.ReadAt(Look(sp, m), v, level), leaf, m));
            && Updated(sp, m, v, level, leaf, h, o) && G.TreeShaped(Look(sp, o)) && G.Allocated(Look(sp, o), gnext, next)
  {
    hide Look, G.TableAt, Reaches, Found, IndicesAgree, SameReads, LeafStore, WordAt, Open, Malformed, PathOf, G.Writes, G.Buildable;
    var h, o := G.ReadAt(Look(sp, m), v, level), LeafStore(sp, G.ReadAt(Look(sp, m), v, level), leaf, m);
    G.WriteKeepsTree(Look(sp, m), Look(sp, o), v, level, gnext, next);
    forall x, k: nat | G.Buildable(Look(sp, m), x, k) && !G.CutsOff(v, level, x, k) ensures G.Buildable(Look(sp, o), x, k) {
      G.WriteBuildable(Look(sp, m), Look(sp, o), v, level, x, k, gnext, next);
    }
    forall iova ensures if IndicesAgree(v, PathOf(sp, iova), level) then Reaches(Found(sp, iova, o), h, leaf, level)
                        else Found(sp, iova, o) == Found(sp, iova, m) {
      WriteSearches(sp, m, o, v, level, leaf, gnext, next, iova);
    }
  }

  /** And linking changes no search. */
  lemma LinkUpdates(sp: Space, m: Store, o: Store, v: seq<nat>, i: nat, level: nat, gnext: nat, next: nat, rest: nat)
    requires sp.vmode.Paged? && G.Links(Look(sp, m), Look(sp, o), v, i, gnext, next)
             && SameReads(sp, m, o, G.ReadAt(Look(sp, m), v, i), gnext) && next < rest
    ensures SameSearches(sp, m, o) && StillBuildable(sp, v, level, m, o)
    ensures G.TreeShaped(Look(sp, o)) && G.Allocated(Look(sp, o), gnext + 1, rest)
    ensures G.Has(Look(sp, o), v, i - 1) && G.TableAt(Look(sp, o), v, i - 1) == Some(gnext)
  {
    hide Look, G.TableAt, SameReads, G.TreeShaped, G.Allocated, G.Buildable, IndicesAgree;
    var w := Look(sp, m);
    G.LinkKeepsTree(w, Look(sp, o), v, i, gnext, next, rest);
    forall x, k: nat | G.Buildable(w, x, k) ensures G.Buildable(Look(sp, o), x, k) {
      G.LinkBuildable(w, Look(sp, o), v, i, x, k, gnext, next);
    }
    forall iova ensures Found(sp, iova, o) == Found(sp, iova, m) { LinkKeepsSearches(sp, m, o, v, i, gnext, next, iova); }
    AgreeSelf(v, i);
    G.LinkReaches(w, Look(sp, o), v, i, v, gnext, next);
  }

  /** Every canonical address in the aligned region of `iova` at `level` comes to the leaf at `at`, every other address
      to what it came to before; leaves can be placed wherever they could, but below the new one. */
  ghost predicate MapUpdate(sp: Space, m: Store, iova: U64, level: nat, leaf: Pte, at: nat, o: Store)
    requires sp.vmode.Paged? && level < sp.vmode.format.Levels()
  {
    var f := sp.vmode.format;
    && (forall x: U64 ::
         if Canonical(f, x) && SameBlock(iova, x, f.Shift(level)) then Reaches(VReach(sp, x, o).0, at, leaf, level)
         else VReach(sp, x, o).0 == VReach(sp, x, m).0)
    && forall x: U64, k: nat | Canonical(f, x) && CanPlace(sp, x, k, m) && !(k < level && SameBlock(iova, x, f.Shift(level))) ::
         CanPlace(sp, x, k, o)
  }

  lemma UpdateOfRegion(sp: Space, m: Store, iova: U64, level: nat, leaf: Pte, at: nat, o: Store)
    requires ValidSpace(sp) && sp.vmode.Paged? && level < sp.vmode.format.Levels() && Canonical(sp.vmode.format, iova)
    requires Updated(sp, m, PathOf(sp, iova), level, leaf, at, o) && Apart(sp, m) && Apart(sp, o)
    ensures MapUpdate(sp, m, iova, level, leaf, at, o)
  {
    hide Look, Found, G.Buildable, IndicesAgree, VReach, Canonical, SameBlock, Reaches, PathOf, Apart, ValidSpace;
    var f := sp.vmode.format;
    forall x: U64 ensures if Canonical(f, x) && SameBlock(iova, x, f.Shift(level)) then Reaches(VReach(sp, x, o).0, at, leaf, level)
                          else VReach(sp, x, o).0 == VReach(sp, x, m).0 {
      ReachIsFound(sp, x, m);
      ReachIsFound(sp, x, o);
      if Canonical(f, x) { BlockIsPath(sp, iova, x, level); }
    }
    forall x: U64, k: nat | Canonical(f, x) && CanPlace(sp, x, k, m) && !(k < level && SameBlock(iova, x, f.Shift(level)))
      ensures CanPlace(sp, x, k, o) {
      BlockIsPath(sp, iova, x, level);
    }
  }
}
