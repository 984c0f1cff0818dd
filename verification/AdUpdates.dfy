/** The accessed and dirty updates of a walk preserve what the tables mean: they only set A and D
    bits of leaf entries, a finished request needs no further update, and whatever translated
    before still translates to the same place. */
module AdUpdates {
  import opened Bits
  import opened Common
  import opened PageTables
  import opened SecondStage
  import opened TwoStage
  import opened Translate

  /** What an update may do to one word: set A, and set D only where writes are allowed, on a leaf. */
  predicate AdStep(p: Pte, q: Pte) {
    q == p || (IsLeaf(p) && SameButAd(p, q) && (p.A ==> q.A) && (p.D ==> q.D) && (q.D && !p.D ==> p.W))
  }

  predicate SameFaults(m: Store, n: Store) {
    m.loadViolations == n.loadViolations && m.storeViolations == n.storeViolations && m.poisoned == n.poisoned
  }

  /** `n` is `m` after some accessed/dirty updates. */
  ghost predicate AdExtends(m: Store, n: Store) {
    SameFaults(m, n) && forall s :: AdStep(Fetch(m, s), Fetch(n, s))
  }

  lemma AdTransitive(m: Store, n: Store, o: Store)
    requires AdExtends(m, n) && AdExtends(n, o)
    ensures AdExtends(m, o)
  {
    forall s ensures AdStep(Fetch(m, s), Fetch(o, s)) {
      assert AdStep(Fetch(m, s), Fetch(n, s)) && AdStep(Fetch(n, s), Fetch(o, s));
    }
  }

  lemma PutExtends(m: Store, s: Slot, p: Pte, dirty: bool)
    requires Fetch(m, s) == p && IsLeaf(p) && (dirty ==> p.W)
    ensures AdExtends(m, Put(m, s, SetAd(p, dirty)))
    ensures Fetch(Put(m, s, SetAd(p, dirty)), s) == SetAd(p, dirty)
  {
  }

  // ---------------------------------------------------------------- what a search found is in memory

  lemma {:induction false} GReachedFrom(sp: Space, vpn: seq<nat>, i: nat, a: nat, m: Store)
    requires sp.gmode.Paged? && i < |vpn|
    ensures var r := GReachFrom(sp, vpn, i, a, m);
            r.GLeaf? ==> IsLeaf(r.pte) && Fetch(m, Slot(r.addr, sp.gmode.format.PteSize())) == r.pte
  {
    hide Malformed, BadPointer, Fetch;
    if i > 0 {
      GReachedFrom(sp, vpn, i - 1, Fetch(m, EntrySlot(sp.gmode.format, vpn, i, a)).PPN * PAGE_SIZE, m);
    }
  }

  lemma GLeafInMemory(sp: Space, gpa: nat, m: Store)
    ensures var r := GReach(sp, gpa, m);
            r.GLeaf? ==> sp.gmode.Paged? && IsLeaf(r.pte) && Fetch(m, Slot(r.addr, sp.gmode.format.PteSize())) == r.pte
  {
    if sp.gmode.Paged? {
      var f := sp.gmode.format;
      GReachedFrom(sp, Indices(f, f.RootWidening(), gpa), f.Levels() - 1, sp.gppn * PAGE_SIZE, m);
    }
  }

  /** A second-stage walk changes memory by an accessed/dirty update of its leaf at most. */
  lemma GWalkExtends(sp: Space, acc: Access, gpa: nat, m: Store)
    ensures AdExtends(m, GWalk(sp, acc, gpa, m).1)
  {
    hide GReach, WellAligned, GTranslated, Fetch;
    var r := GReach(sp, gpa, m);
    GLeafInMemory(sp, gpa, m);
    if r.GLeaf? {
      PutExtends(m, Slot(r.addr, sp.gmode.format.PteSize()), r.pte, (acc.write || acc.implicit) && r.pte.W);
    }
  }

  lemma {:induction false} VReachExtends(sp: Space, vpn: seq<nat>, i: nat, a: nat, global: bool, m: Store)
    requires sp.vmode.Paged? && i < |vpn|
    ensures var (r, n) := VReachFrom(sp, vpn, i, a, global, m);
            AdExtends(m, n) && (r.VLeaf? ==> IsLeaf(r.pte) && Fetch(n, Slot(r.addr, sp.vmode.format.PteSize())) == r.pte)
  {
    hide GWalk, Malformed, BadPointer, Fetch, AdExtends;
    var (g, m1) := GWalk(sp, IMPLICIT, EntrySlot(sp.vmode.format, vpn, i, a).addr, m);
    GWalkExtends(sp, IMPLICIT, EntrySlot(sp.vmode.format, vpn, i, a).addr, m);
    if g.GOk? && i > 0 {
      var p := Fetch(m1, Slot(g.pa, sp.vmode.format.PteSize()));
      VReachExtends(sp, vpn, i - 1, p.PPN * PAGE_SIZE, global || p.G, m1);
      AdTransitive(m, m1, VReachFrom(sp, vpn, i - 1, p.PPN * PAGE_SIZE, global || p.G, m1).1);
    }
  }

  lemma VSearchExtends(sp: Space, iova: nat, m: Store)
    ensures var (r, n) := VReach(sp, iova, m);
            AdExtends(m, n) &&
            (r.VLeaf? ==> sp.vmode.Paged? && IsLeaf(r.pte) && Fetch(n, Slot(r.addr, sp.vmode.format.PteSize())) == r.pte)
  {
    if sp.vmode.Paged? {
      var f := sp.vmode.format;
      VReachExtends(sp, Indices(f, 0, iova), f.Levels() - 1, sp.vppn * PAGE_SIZE, false, m);
    }
  }

  lemma VWalkExtends(sp: Space, req: Request, m: Store)
    ensures AdExtends(m, VWalk(sp, req, m).1)
  {
    hide VReach, WellAligned, VTranslated, Fetch, AdExtends;
    var (r, n) := VReach(sp, req.iova, m);
    VSearchExtends(sp, req.iova, m);
    if r.VLeaf? {
      PutExtends(n, Slot(r.addr, sp.vmode.format.PteSize()), r.pte, req.write && r.pte.W);
    }
    if VWalk(sp, req, m).1 != n {
      AdTransitive(m, n, VWalk(sp, req, m).1);
    }
  }

  /** D bits that `n` has and `m` has not are in words of `size`, or anywhere if `any`. */
  ghost predicate DirtyIn(m: Store, n: Store, any: bool, size: Option<nat>) {
    forall s :: Fetch(n, s).D && !Fetch(m, s).D ==> any || size == Some(s.size)
  }

  lemma DirtyTransitive(m: Store, n: Store, o: Store, any: bool, size: Option<nat>)
    requires DirtyIn(m, n, any, size) && DirtyIn(n, o, any, size)
    ensures DirtyIn(m, o, any, size)
  {
    hide Fetch;
  }

  /** The second-stage entries that implicit accesses may make dirty. */
  function SecondStageSize(sp: Space, acc: Access): Option<nat> {
    if acc.implicit && sp.gade && sp.gmode.Paged? then Some(sp.gmode.format.PteSize()) else None
  }

  function ImplicitSize(sp: Space): Option<nat> { if sp.vmode.Paged? then SecondStageSize(sp, IMPLICIT) else None }

  lemma PutDirties(m: Store, s: Slot, p: Pte, dirty: bool, any: bool, size: Option<nat>)
    requires Fetch(m, s) == p && (dirty ==> any || size == Some(s.size))
    ensures DirtyIn(m, Put(m, s, SetAd(p, dirty)), any, size)
  {
  }

  lemma GWalkDirties(sp: Space, acc: Access, gpa: nat, m: Store)
    ensures DirtyIn(m, GWalk(sp, acc, gpa, m).1, acc.write, SecondStageSize(sp, acc))
  {
    hide GReach, WellAligned, GTranslated, Fetch;
    var r := GReach(sp, gpa, m);
    GLeafInMemory(sp, gpa, m);
    if r.GLeaf? && sp.gade {
      PutDirties(m, Slot(r.addr, sp.gmode.format.PteSize()), r.pte, (acc.write || acc.implicit) && r.pte.W,
                 acc.write, SecondStageSize(sp, acc));
    }
  }

  lemma {:induction false} VReachDirties(sp: Space, vpn: seq<nat>, i: nat, a: nat, global: bool, m: Store)
    requires sp.vmode.Paged? && i < |vpn|
    ensures DirtyIn(m, VReachFrom(sp, vpn, i, a, global, m).1, false, ImplicitSize(sp))
  {
    hide GWalk, Malformed, BadPointer, Fetch, DirtyIn, SecondStageSize;
    var (g, m1) := GWalk(sp, IMPLICIT, EntrySlot(sp.vmode.format, vpn, i, a).addr, m);
    GWalkDirties(sp, IMPLICIT, EntrySlot(sp.vmode.format, vpn, i, a).addr, m);
    if g.GOk? && i > 0 {
      var p := Fetch(m1, Slot(g.pa, sp.vmode.format.PteSize()));
      VReachDirties(sp, vpn, i - 1, p.PPN * PAGE_SIZE, global || p.G, m1);
      DirtyTransitive(m, m1, VReachFrom(sp, vpn, i - 1, p.PPN * PAGE_SIZE, global || p.G, m1).1, false, ImplicitSize(sp));
    }
  }

  lemma VWalkDirties(sp: Space, req: Request, m: Store)
    ensures DirtyIn(m, VWalk(sp, req, m).1, req.write, ImplicitSize(sp))
  {
    hide VReachFrom, WellAligned, VTranslated, Fetch, ImplicitSize;
    var (r, n) := VReach(sp, req.iova, m);
    VSearchExtends(sp, req.iova, m);
    if sp.vmode.Paged? && Canonical(sp.vmode.format, req.iova) {
      var f := sp.vmode.format;
      VReachDirties(sp, Indices(f, 0, req.iova), f.Levels() - 1, sp.vppn * PAGE_SIZE, false, m);
    }
    assert DirtyIn(m, n, req.write, ImplicitSize(sp));
    if r.VLeaf? { PutDirties(n, Slot(r.addr, sp.vmode.format.PteSize()), r.pte, req.write && r.pte.W, req.write, ImplicitSize(sp)); }
  }

  /** Whatever a translation does, successful or not, to memory is accessed/dirty updates of leaf
      entries; D is only ever set on an entry that allows writes, and by a request that does not write
      only on second-stage entries that its implicit accesses go through. */
  lemma TranslationOnlySetsAd(sp: Space, req: Request, m: Store)
    ensures AdExtends(m, Translation(sp, req, m).1)
    ensures DirtyIn(m, Translation(sp, req, m).1, req.write, ImplicitSize(sp))
  {
    hide VWalk, GWalk, AdExtends, Fetch, ImplicitSize;
    VWalkExtends(sp, req, m);
    VWalkDirties(sp, req, m);
    var (v, m1) := VWalk(sp, req, m);
    if v.VOk? {
      GWalkExtends(sp, Explicit(req), v.gpa, m1);
      GWalkDirties(sp, Explicit(req), v.gpa, m1);
      var m2 := GWalk(sp, Explicit(req), v.gpa, m1).1;
      AdTransitive(m, m1, m2);
      DirtyTransitive(m, m1, m2, req.write, ImplicitSize(sp));
    }
  }

  // ---------------------------------------------------------------- searches see through A and D

  /** The two memories differ in accessed and dirty bits of leaf entries only, in either direction. */
  ghost predicate Similar(m: Store, n: Store) {
    SameFaults(m, n) && forall s :: SimilarWord(Fetch(m, s), Fetch(n, s))
  }

  predicate SimilarWord(p: Pte, q: Pte) {
    q == p || (IsLeaf(p) && SameButAd(p, q))
  }

  lemma ExtendsIsSimilar(m: Store, n: Store)
    requires AdExtends(m, n)
    ensures Similar(m, n)
  {
    forall s ensures SimilarWord(Fetch(m, s), Fetch(n, s)) {
      assert AdStep(Fetch(m, s), Fetch(n, s));
    }
  }

  lemma {:induction false} GReachSimilarFrom(sp: Space, vpn: seq<nat>, i: nat, a: nat, m: Store, n: Store)
    requires sp.gmode.Paged? && i < |vpn| && Similar(m, n)
    ensures var r := GReachFrom(sp, vpn, i, a, m);
            r.GLeaf? ==> GReachFrom(sp, vpn, i, a, n) == r.(pte := Fetch(n, Slot(r.addr, sp.gmode.format.PteSize())))
  {
    hide Fetch;
    var s := EntrySlot(sp.gmode.format, vpn, i, a);
    var p := Fetch(m, s);
    assert SimilarWord(p, Fetch(n, s));
    if !IsLeaf(p) && i > 0 {
      GReachSimilarFrom(sp, vpn, i - 1, p.PPN * PAGE_SIZE, m, n);
    }
  }

  lemma GReachSimilar(sp: Space, gpa: nat, m: Store, n: Store)
    requires Similar(m, n)
    ensures var r := GReach(sp, gpa, m);
            && (r.GBareLeaf? ==> GReach(sp, gpa, n) == r)
            && (r.GLeaf? ==> sp.gmode.Paged? && GReach(sp, gpa, n) == r.(pte := Fetch(n, Slot(r.addr, sp.gmode.format.PteSize()))))
  {
    if sp.gmode.Paged? {
      var f := sp.gmode.format;
      GReachSimilarFrom(sp, Indices(f, f.RootWidening(), gpa), f.Levels() - 1, sp.gppn * PAGE_SIZE, m, n);
    }
  }

  // ---------------------------------------------------------------- finished requests

  /** The walk succeeds and has nothing left to update. */
  predicate GDone(sp: Space, acc: Access, gpa: nat, m: Store) {
    GWalk(sp, acc, gpa, m).0.GOk? && GWalk(sp, acc, gpa, m).1 == m
  }

  lemma GDoneIsSettled(sp: Space, acc: Access, gpa: nat, m: Store)
    requires GDone(sp, acc, gpa, m)
    ensures var r := GReach(sp, gpa, m); r.GLeaf? ==> GSettled(sp, acc, r.pte)
  {
    hide GReach, WellAligned, GTranslated;
    var r := GReach(sp, gpa, m);
    GLeafInMemory(sp, gpa, m);
    if r.GLeaf? && !GSettled(sp, acc, r.pte) {
      var d := (acc.write || acc.implicit) && r.pte.W;
      PutExtends(m, Slot(r.addr, sp.gmode.format.PteSize()), r.pte, d);
    }
  }

  /** Updates are never undone: a walk whose memory is later back at `m` did not change it. */
  lemma GUnchanged(sp: Space, acc: Access, gpa: nat, m: Store)
    requires AdExtends(GWalk(sp, acc, gpa, m).1, m)
    ensures GWalk(sp, acc, gpa, m).1 == m
  {
    hide GReach, WellAligned, GTranslated;
    var r := GReach(sp, gpa, m);
    GLeafInMemory(sp, gpa, m);
    if GWalk(sp, acc, gpa, m).1 != m {
      var s, d := Slot(r.addr, sp.gmode.format.PteSize()), (acc.write || acc.implicit) && r.pte.W;
      PutExtends(m, s, r.pte, d);
    }
  }

  predicate GStep(g: GResult, g': GResult) {
    g.GOk? && g'.GOk? && g' == g.(pte := g'.pte) && AdStep(g.pte, g'.pte)
  }

  /** Later updates, by whichever request, leave a finished walk finished with the same result. */
  lemma GDoneStable(sp: Space, acc: Access, gpa: nat, m: Store, n: Store)
    requires GDone(sp, acc, gpa, m) && AdExtends(m, n)
    ensures GDone(sp, acc, gpa, n) && GStep(GWalk(sp, acc, gpa, m).0, GWalk(sp, acc, gpa, n).0)
  {
    hide GReach, Splice, Fetch;
    ExtendsIsSimilar(m, n);
    GReachSimilar(sp, gpa, m, n);
    GDoneIsSettled(sp, acc, gpa, m);
    GLeafInMemory(sp, gpa, m);
    var r := GReach(sp, gpa, m);
    if r.GLeaf? {
      var s := Slot(r.addr, sp.gmode.format.PteSize());
      assert AdStep(Fetch(m, s), Fetch(n, s));
    }
  }

  /** A successful walk leaves itself finished. */
  lemma GWalkFinishes(sp: Space, acc: Access, gpa: nat, m: Store)
    ensures var (g, n) := GWalk(sp, acc, gpa, m);
            g.GOk? ==> GDone(sp, acc, gpa, n) && GStep(g, GWalk(sp, acc, gpa, n).0)
  {
    hide GReach, Splice, Fetch, AdExtends, Similar;
    var (g, n) := GWalk(sp, acc, gpa, m);
    if g.GOk? {
      GWalkExtends(sp, acc, gpa, m);
      ExtendsIsSimilar(m, n);
      GReachSimilar(sp, gpa, m, n);
      GLeafInMemory(sp, gpa, m);
      var r := GReach(sp, gpa, m);
      if r.GLeaf? && !GSettled(sp, acc, r.pte) {
        PutExtends(m, Slot(r.addr, sp.gmode.format.PteSize()), r.pte, (acc.write || acc.implicit) && r.pte.W);
      }
    }
  }

  predicate VReachStep(r: VReached, r': VReached) {
    if r.VLeaf? && r'.VLeaf? then r' == r.(pte := r'.pte) && AdStep(r.pte, r'.pte) else r.VBareLeaf? && r' == r
  }

  lemma {:induction false} VSearchStable(sp: Space, vpn: seq<nat>, i: nat, a: nat, global: bool, m: Store, n: Store)
    requires sp.vmode.Paged? && i < |vpn| && AdExtends(m, n)
    requires VReachFrom(sp, vpn, i, a, global, m).0.VLeaf? && VReachFrom(sp, vpn, i, a, global, m).1 == m
    ensures var (r', n') := VReachFrom(sp, vpn, i, a, global, n);
            n' == n && VReachStep(VReachFrom(sp, vpn, i, a, global, m).0, r')
  {
    hide GWalk, Fetch;
    var entry := EntrySlot(sp.vmode.format, vpn, i, a).addr;
    var (g, m1) := GWalk(sp, IMPLICIT, entry, m);
    var s := Slot(g.pa, sp.vmode.format.PteSize());
    var p := Fetch(m1, s);
    GWalkExtends(sp, IMPLICIT, entry, m);
    if !IsLeaf(p) {
      VReachExtends(sp, vpn, i - 1, p.PPN * PAGE_SIZE, global || p.G, m1);
    }
    GUnchanged(sp, IMPLICIT, entry, m);
    GDoneStable(sp, IMPLICIT, entry, m, n);
    assert AdStep(p, Fetch(n, s));
    if !IsLeaf(p) {
      VSearchStable(sp, vpn, i - 1, p.PPN * PAGE_SIZE, global || p.G, m, n);
    }
  }

  /** A successful search leaves itself finished. */
  lemma {:induction false} VSearchFinishes(sp: Space, vpn: seq<nat>, i: nat, a: nat, global: bool, m: Store)
    requires sp.vmode.Paged? && i < |vpn|
    ensures var (r, n) := VReachFrom(sp, vpn, i, a, global, m);
            r.VLeaf? ==> VReachFrom(sp, vpn, i, a, global, n).1 == n && VReachStep(r, VReachFrom(sp, vpn, i, a, global, n).0)
  {
    hide GWalk, Fetch;
    var entry := EntrySlot(sp.vmode.format, vpn, i, a).addr;
    var (g, m1) := GWalk(sp, IMPLICIT, entry, m);
    var (r, n) := VReachFrom(sp, vpn, i, a, global, m);
    if r.VLeaf? {
      var s := Slot(g.pa, sp.vmode.format.PteSize());
      var p := Fetch(m1, s);
      GWalkFinishes(sp, IMPLICIT, entry, m);
      if !IsLeaf(p) {
        VReachExtends(sp, vpn, i - 1, p.PPN * PAGE_SIZE, global || p.G, m1);
        GDoneStable(sp, IMPLICIT, entry, m1, n);
        assert AdStep(p, Fetch(n, s));
        VSearchFinishes(sp, vpn, i - 1, p.PPN * PAGE_SIZE, global || p.G, m1);
      }
    }
  }

  lemma {:induction false} VSearchUnchanged(sp: Space, vpn: seq<nat>, i: nat, a: nat, global: bool, m: Store)
    requires sp.vmode.Paged? && i < |vpn|
    requires AdExtends(VReachFrom(sp, vpn, i, a, global, m).1, m)
    ensures VReachFrom(sp, vpn, i, a, global, m).1 == m
  {
    hide GWalk, Fetch, AdExtends;
    var entry := EntrySlot(sp.vmode.format, vpn, i, a).addr;
    var (g, m1) := GWalk(sp, IMPLICIT, entry, m);
    var n := VReachFrom(sp, vpn, i, a, global, m).1;
    var p := if g.GOk? then Fetch(m1, Slot(g.pa, sp.vmode.format.PteSize())) else ZERO_PTE;
    GWalkExtends(sp, IMPLICIT, entry, m);
    if n != m1 {
      VReachExtends(sp, vpn, i - 1, p.PPN * PAGE_SIZE, global || p.G, m1);
      AdTransitive(m1, n, m);
      GUnchanged(sp, IMPLICIT, entry, m);
      VSearchUnchanged(sp, vpn, i - 1, p.PPN * PAGE_SIZE, global || p.G, m1);
    } else {
      GUnchanged(sp, IMPLICIT, entry, m);
    }
  }

  lemma VReachStable(sp: Space, iova: nat, m: Store, n: Store)
    requires AdExtends(m, n) && VReach(sp, iova, m).1 == m && !VReach(sp, iova, m).0.VStop?
    ensures VReach(sp, iova, n).1 == n && VReachStep(VReach(sp, iova, m).0, VReach(sp, iova, n).0)
  {
    hide VReachFrom, AdExtends;
    if sp.vmode.Paged? {
      var f := sp.vmode.format;
      NotBare(sp, iova, m);
      VSearchStable(sp, Indices(f, 0, iova), f.Levels() - 1, sp.vppn * PAGE_SIZE, false, m, n);
    }
  }

  lemma NotBare(sp: Space, iova: nat, m: Store)
    ensures VReach(sp, iova, m).0.VBareLeaf? <==> sp.vmode.Bare?
  {
    if sp.vmode.Paged? {
      var f := sp.vmode.format;
      VReachLevel(sp, Indices(f, 0, iova), f.Levels() - 1, sp.vppn * PAGE_SIZE, false, m);
    }
  }

  lemma VReachFinishes(sp: Space, iova: nat, m: Store)
    ensures var (r, n) := VReach(sp, iova, m);
            !r.VStop? ==> VReach(sp, iova, n).1 == n && VReachStep(r, VReach(sp, iova, n).0)
  {
    hide VReachFrom;
    if sp.vmode.Paged? {
      var f := sp.vmode.format;
      NotBare(sp, iova, m);
      VSearchFinishes(sp, Indices(f, 0, iova), f.Levels() - 1, sp.vppn * PAGE_SIZE, false, m);
    }
  }

  lemma VReachUnchanged(sp: Space, iova: nat, m: Store)
    requires AdExtends(VReach(sp, iova, m).1, m)
    ensures VReach(sp, iova, m).1 == m
  {
    hide VReachFrom, AdExtends;
    if sp.vmode.Paged? && Canonical(sp.vmode.format, iova) {
      var f := sp.vmode.format;
      VSearchUnchanged(sp, Indices(f, 0, iova), f.Levels() - 1, sp.vppn * PAGE_SIZE, false, m);
    }
  }

  /** The update of the first-stage leaf records the access. */
  lemma VFinishSettles(sp: Space, req: Request, r: VReached, m: Store)
    requires r.VLeaf? ==> sp.vmode.Paged? && IsLeaf(r.pte) && Fetch(m, Slot(r.addr, sp.vmode.format.PteSize())) == r.pte
    ensures var (v, n) := VFinish(sp, req, r, m);
            && AdExtends(m, n) && (v.VOk? ==> !r.VStop?)
            && (v.VOk? && r.VLeaf? ==> VSettled(req, Fetch(n, Slot(r.addr, sp.vmode.format.PteSize()))))
  {
    hide WellAligned, VTranslated, Fetch;
    if r.VLeaf? {
      PutExtends(m, Slot(r.addr, sp.vmode.format.PteSize()), r.pte, req.write && r.pte.W);
    }
  }

  lemma NapotAlike(p: Pte, q: Pte, addr: nat)
    requires SameButAd(p, q)
    ensures NapotPpn(p, addr) == NapotPpn(q, addr)
  {
  }

  lemma VFinishAgain(sp: Space, req: Request, r: VReached, r': VReached, m: Store, n: Store)
    requires VReachStep(r, r') && (r.VLeaf? ==> sp.vmode.Paged? && VSettled(req, r'.pte))
    requires VFinish(sp, req, r, m).0.VOk?
    ensures VFinish(sp, req, r', n).1 == n && VStep(VFinish(sp, req, r, m).0, VFinish(sp, req, r', n).0)
  {
    if r.VLeaf? { NapotAlike(r.pte, r'.pte, req.iova); }
    hide Splice, Low, VSettled, NapotPpn;
  }

  /** Repeating the first stage: from the memory it left, or any later one, it finds the same
      leaf and has nothing to update. */
  lemma VWalkAgain(sp: Space, req: Request, m: Store, n: Store)
    requires VWalk(sp, req, m).0.VOk? && AdExtends(VWalk(sp, req, m).1, n)
    ensures VWalk(sp, req, n).1 == n && VStep(VWalk(sp, req, m).0, VWalk(sp, req, n).0)
  {
    hide VReach, VFinish, Fetch, AdExtends, VSettled;
    var (r, m1) := VReach(sp, req.iova, m);
    var m2 := VWalk(sp, req, m).1;
    VReachFinishes(sp, req.iova, m);
    VSearchExtends(sp, req.iova, m);
    VFinishSettles(sp, req, r, m1);
    AdTransitive(m1, m2, n);
    VReachStable(sp, req.iova, m1, n);
    VSearchExtends(sp, req.iova, n);
    VSettledStable(req, r, m2, n, sp);
    VFinishAgain(sp, req, r, VReach(sp, req.iova, n).0, m1, n);
  }

  lemma VSettledStable(req: Request, r: VReached, m: Store, n: Store, sp: Space)
    requires r.VLeaf? ==> sp.vmode.Paged? && VSettled(req, Fetch(m, Slot(r.addr, sp.vmode.format.PteSize())))
    requires AdExtends(m, n)
    ensures r.VLeaf? ==> VSettled(req, Fetch(n, Slot(r.addr, sp.vmode.format.PteSize())))
  {
    hide Fetch;
    if r.VLeaf? { AdAt(m, n, Slot(r.addr, sp.vmode.format.PteSize())); }
  }

  lemma AdAt(m: Store, n: Store, s: Slot)
    requires AdExtends(m, n)
    ensures AdStep(Fetch(m, s), Fetch(n, s))
  {
  }

  predicate VStep(v: VResult, v': VResult) {
    v.VOk? && v'.VOk? && v' == v.(pte := v'.pte) && AdStep(v.pte, v'.pte)
  }

  /** The same translation: address, size, permissions and memory type; A and D may have been set. */
  predicate OutcomeStep(o: Outcome, o': Outcome) {
    && o.Done? && o'.Done? && o' == o.(vpte := o'.vpte, gpte := o'.gpte)
    && AdStep(o.vpte, o'.vpte) && AdStep(o.gpte, o'.gpte)
  }

  /** Repeating a successful request, at once or after any other updates, gives the same translation
      and leaves memory unchanged. */
  lemma RepeatedTranslation(sp: Space, req: Request, m: Store, n: Store)
    requires Translation(sp, req, m).0.Done? && AdExtends(Translation(sp, req, m).1, n)
    ensures Translation(sp, req, n).1 == n
    ensures OutcomeStep(Translation(sp, req, m).0, Translation(sp, req, n).0)
  {
    hide VWalk, GWalk, Merge, AdExtends, OutcomeStep;
    var (v, m1) := VWalk(sp, req, m);
    var acc := Explicit(req);
    var m2 := GWalk(sp, acc, v.gpa, m1).1;
    GWalkExtends(sp, acc, v.gpa, m1);
    AdTransitive(m1, m2, n);
    VWalkAgain(sp, req, m, n);
    GWalkFinishes(sp, acc, v.gpa, m1);
    GDoneStable(sp, acc, v.gpa, m2, n);
    MergeStep(req.iova, v, VWalk(sp, req, n).0, GWalk(sp, acc, v.gpa, m1).0, GWalk(sp, acc, v.gpa, n).0);
  }

  lemma MergeStep(iova: nat, v: VResult, v': VResult, g: GResult, g': GResult)
    requires VStep(v, v') && GStep(g, g')
    ensures OutcomeStep(Merge(iova, v, g), Merge(iova, v', g'))
  {
    hide Splice;
  }
}
