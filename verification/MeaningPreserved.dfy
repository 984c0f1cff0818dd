/** Requests that translated before some accessed/dirty updates still translate to the same place
    after them, also when they had updates of their own left to make. */
module MeaningPreserved {
  import opened Bits
  import opened Common
  import opened PageTables
  import opened SecondStage
  import opened TwoStage
  import opened Translate
  import opened AdUpdates

  /** An implicit second-stage access that sets A also sets D, although with SADE clear it would not
      have required D. A run that finds A already set therefore leaves D behind at such an entry. */
  predicate Lagging(sp: Space, m: Store, s: Slot, p: Pte, q: Pte) {
    && sp.gade && !sp.sade && StoreStatus(m, s.addr).Okay?
    && q.A && p.W && !Fetch(m, s).D
  }

  /** `p` and `q` are a word in two runs that started from `m` and from an update of `m`. */
  predicate Follows(sp: Space, m: Store, s: Slot, p: Pte, q: Pte) {
    || q == p
    || (IsLeaf(p) && SameButAd(p, q) && (p.A ==> q.A) && (p.D && !q.D ==> Lagging(sp, m, s, p, q)))
  }

  ghost predicate Tracks(sp: Space, m: Store, x: Store, y: Store) {
    AdExtends(m, x) && SameFaults(x, y) && forall s :: Follows(sp, m, s, Fetch(x, s), Fetch(y, s))
  }

  lemma TracksAt(sp: Space, m: Store, x: Store, y: Store, s: Slot)
    requires Tracks(sp, m, x, y)
    ensures Follows(sp, m, s, Fetch(x, s), Fetch(y, s)) && AdStep(Fetch(m, s), Fetch(x, s))
  {
  }

  lemma TracksIsSimilar(sp: Space, m: Store, x: Store, y: Store)
    requires Tracks(sp, m, x, y)
    ensures Similar(x, y)
  {
    forall s ensures SimilarWord(Fetch(x, s), Fetch(y, s)) { TracksAt(sp, m, x, y, s); }
  }

  /** Changing one word in both runs keeps them in step when the new words are in step. */
  lemma TracksPut(sp: Space, m: Store, x: Store, y: Store, s: Slot, x': Store, y': Store)
    requires Tracks(sp, m, x, y) && AdExtends(x, x')
    requires SameFaults(y, y')
    requires forall t :: t != s ==> Fetch(x', t) == Fetch(x, t)
    requires forall t :: t != s ==> Fetch(y', t) == Fetch(y, t)
    requires Follows(sp, m, s, Fetch(x', s), Fetch(y', s))
    ensures Tracks(sp, m, x', y')
  {
    AdTransitive(m, x, x');
    forall t ensures Follows(sp, m, t, Fetch(x', t), Fetch(y', t)) {
      if t != s { TracksAt(sp, m, x, y, t); }
    }
  }

  predicate SameWalk(g: GResult, h: GResult) {
    g.GOk? && h.GOk? && h == g.(pte := h.pte) && SameButAd(g.pte, h.pte)
  }

  /** The only word a second-stage walk may change is its leaf's. */
  lemma GWalkElsewhere(sp: Space, acc: Access, gpa: nat, m: Store, t: Slot)
    ensures var r := GReach(sp, gpa, m);
            !(r.GLeaf? && sp.gmode.Paged? && t == Slot(r.addr, sp.gmode.format.PteSize())) ==>
              Fetch(GWalk(sp, acc, gpa, m).1, t) == Fetch(m, t)
  {
    hide GReach, WellAligned, GTranslated;
    GLeafInMemory(sp, gpa, m);
  }

  /** What a successful walk leaves in its leaf word. */
  lemma GWalkAtLeaf(sp: Space, acc: Access, gpa: nat, m: Store)
    ensures var (g, r) := (GWalk(sp, acc, gpa, m), GReach(sp, gpa, m));
            g.0.GOk? && r.GLeaf? && sp.gmode.Paged? ==>
              Fetch(g.1, Slot(r.addr, sp.gmode.format.PteSize())) ==
                (if GSettled(sp, acc, r.pte) then r.pte else SetAd(r.pte, (acc.write || acc.implicit) && r.pte.W)) &&
              (!GSettled(sp, acc, r.pte) ==> sp.gade && StoreStatus(m, r.addr).Okay?)
  {
    hide GReach, WellAligned, GTranslated, GSettled;
    GLeafInMemory(sp, gpa, m);
    var r := GReach(sp, gpa, m);
    if r.GLeaf? {
      PutExtends(m, Slot(r.addr, sp.gmode.format.PteSize()), r.pte, (acc.write || acc.implicit) && r.pte.W);
    }
  }

  lemma GWalkTracks(sp: Space, acc: Access, gpa: nat, m: Store, x: Store, y: Store)
    requires Tracks(sp, m, x, y) && GWalk(sp, acc, gpa, x).0.GOk?
    ensures SameWalk(GWalk(sp, acc, gpa, x).0, GWalk(sp, acc, gpa, y).0)
    ensures Tracks(sp, m, GWalk(sp, acc, gpa, x).1, GWalk(sp, acc, gpa, y).1)
  {
    SameWalks(sp, acc, gpa, m, x, y);
    hide GWalk, GReach, Fetch, Tracks, Similar, AdExtends;
    TracksIsSimilar(sp, m, x, y);
    GReachSimilar(sp, gpa, x, y);
    var r, x', y' := GReach(sp, gpa, x), GWalk(sp, acc, gpa, x).1, GWalk(sp, acc, gpa, y).1;
    GLevelBound(sp, gpa, x);
    GWalkExtends(sp, acc, gpa, x);
    GWalkExtends(sp, acc, gpa, y);
    var s := if r.GLeaf? then Slot(r.addr, sp.gmode.format.PteSize()) else Slot(0, 0);
    forall t | !(r.GLeaf? && t == s) ensures Fetch(x', t) == Fetch(x, t) && Fetch(y', t) == Fetch(y, t) {
      GWalkElsewhere(sp, acc, gpa, x, t);
      GWalkElsewhere(sp, acc, gpa, y, t);
    }
    if r.GLeaf? { LeafFollows(sp, acc, gpa, m, x, y); } else { TracksAt(sp, m, x, y, s); }
    SameFaultsOf(y, y');
    TracksPut(sp, m, x, y, s, x', y');
  }

  lemma SameFaultsOf(m: Store, n: Store)
    requires AdExtends(m, n)
    ensures SameFaults(m, n)
  {
  }

  lemma SameWalks(sp: Space, acc: Access, gpa: nat, m: Store, x: Store, y: Store)
    requires Tracks(sp, m, x, y) && GWalk(sp, acc, gpa, x).0.GOk?
    ensures SameWalk(GWalk(sp, acc, gpa, x).0, GWalk(sp, acc, gpa, y).0)
  {
    hide GReach, Fetch, Tracks, Similar, AdExtends, Splice, Low;
    TracksIsSimilar(sp, m, x, y);
    GReachSimilar(sp, gpa, x, y);
    GLeafInMemory(sp, gpa, x);
    GLeafInMemory(sp, gpa, y);
    var r := GReach(sp, gpa, x);
    if r.GLeaf? {
      TracksAt(sp, m, x, y, Slot(r.addr, sp.gmode.format.PteSize()));
      FaultsAlike(sp, m, x, y, r.addr);
    }
  }

  lemma FaultsAlike(sp: Space, m: Store, x: Store, y: Store, addr: nat)
    requires Tracks(sp, m, x, y)
    ensures StoreStatus(x, addr) == StoreStatus(y, addr) == StoreStatus(m, addr)
  {
  }

  lemma LeafFollows(sp: Space, acc: Access, gpa: nat, m: Store, x: Store, y: Store)
    requires Tracks(sp, m, x, y) && GWalk(sp, acc, gpa, x).0.GOk? && GReach(sp, gpa, x).GLeaf? && sp.gmode.Paged?
    ensures var s := Slot(GReach(sp, gpa, x).addr, sp.gmode.format.PteSize());
            Follows(sp, m, s, Fetch(GWalk(sp, acc, gpa, x).1, s), Fetch(GWalk(sp, acc, gpa, y).1, s))
  {
    hide GWalk, GReach, Fetch, Tracks, Similar, AdExtends;
    SameWalks(sp, acc, gpa, m, x, y);
    TracksIsSimilar(sp, m, x, y);
    GReachSimilar(sp, gpa, x, y);
    GLeafInMemory(sp, gpa, x);
    GLeafInMemory(sp, gpa, y);
    var r := GReach(sp, gpa, x);
    TracksAt(sp, m, x, y, Slot(r.addr, sp.gmode.format.PteSize()));
    FaultsAlike(sp, m, x, y, r.addr);
    GWalkAtLeaf(sp, acc, gpa, x);
    GWalkAtLeaf(sp, acc, gpa, y);
  }

  // ---------------------------------------------------------------- the first stage

  predicate SameSearch(r: VReached, r': VReached) {
    if r.VLeaf? && r'.VLeaf? then r' == r.(pte := r'.pte) && SameButAd(r.pte, r'.pte) else r.VBareLeaf? && r' == r
  }

  lemma {:induction false} VSearchTracks(sp: Space, vpn: seq<nat>, i: nat, a: nat, global: bool, m: Store, x: Store, y: Store)
    requires sp.vmode.Paged? && i < |vpn| && Tracks(sp, m, x, y)
    requires VReachFrom(sp, vpn, i, a, global, x).0.VLeaf?
    ensures SameSearch(VReachFrom(sp, vpn, i, a, global, x).0, VReachFrom(sp, vpn, i, a, global, y).0)
    ensures Tracks(sp, m, VReachFrom(sp, vpn, i, a, global, x).1, VReachFrom(sp, vpn, i, a, global, y).1)
  {
    hide GWalk, Fetch, Tracks;
    var entry := EntrySlot(sp.vmode.format, vpn, i, a).addr;
    var (g, x1) := GWalk(sp, IMPLICIT, entry, x);
    var y1 := GWalk(sp, IMPLICIT, entry, y).1;
    GWalkTracks(sp, IMPLICIT, entry, m, x, y);
    var s := Slot(g.pa, sp.vmode.format.PteSize());
    TracksAt(sp, m, x1, y1, s);
    LoadsAlike(sp, m, x1, y1, g.pa);
    var p := Fetch(x1, s);
    if !IsLeaf(p) {
      VSearchTracks(sp, vpn, i - 1, p.PPN * PAGE_SIZE, global || p.G, m, x1, y1);
    }
  }

  lemma LoadsAlike(sp: Space, m: Store, x: Store, y: Store, addr: nat)
    requires Tracks(sp, m, x, y)
    ensures LoadStatus(x, addr) == LoadStatus(y, addr)
  {
  }

  lemma VReachTracks(sp: Space, iova: nat, m: Store, x: Store, y: Store)
    requires Tracks(sp, m, x, y) && !VReach(sp, iova, x).0.VStop?
    ensures SameSearch(VReach(sp, iova, x).0, VReach(sp, iova, y).0)
    ensures Tracks(sp, m, VReach(sp, iova, x).1, VReach(sp, iova, y).1)
  {
    hide VReachFrom, Tracks;
    if sp.vmode.Paged? {
      var f := sp.vmode.format;
      NotBare(sp, iova, x);
      VSearchTracks(sp, Indices(f, 0, iova), f.Levels() - 1, sp.vppn * PAGE_SIZE, false, m, x, y);
    }
  }

  /** The walk sets D in first-stage leaves where it is needed, or does not need it, or finds it set
      already in memory `m` before its own second-stage updates. */
  predicate DirtyInTime(sp: Space, req: Request, m: Store) {
    sp.sade ||
    var (r, n) := VReach(sp, req.iova, m);
    r.VLeaf? && sp.vmode.Paged? && req.write && r.pte.W ==> Fetch(m, Slot(r.addr, sp.vmode.format.PteSize())).D
  }

  /** Once D does not lag at the leaf, whatever finished in one run finishes in the other. */
  lemma VFinishTracks(sp: Space, req: Request, r: VReached, r': VReached, m: Store, x: Store, y: Store)
    requires Tracks(sp, m, x, y) && SameSearch(r, r')
    requires r.VLeaf? ==> sp.vmode.Paged? && IsLeaf(r.pte)
    requires VFinish(sp, req, r, x).0.VOk?
    requires r.VLeaf? ==> var s := Slot(r.addr, sp.vmode.format.PteSize());
                          Fetch(x, s) == r.pte && Fetch(y, s) == r'.pte && (req.write && r.pte.W && r.pte.D ==> r'.pte.D)
    ensures SameFirst(VFinish(sp, req, r, x).0, VFinish(sp, req, r', y).0)
    ensures Tracks(sp, m, VFinish(sp, req, r, x).1, VFinish(sp, req, r', y).1)
  {
    if r.VLeaf? { TracksAt(sp, m, x, y, Slot(r.addr, sp.vmode.format.PteSize())); }
    SameFirsts(sp, req, r, r', m, x, y);
    if r.VLeaf? {
      var s := Slot(r.addr, sp.vmode.format.PteSize());
      var x', y' := VFinish(sp, req, r, x).1, VFinish(sp, req, r', y).1;
      VFinishSettles(sp, req, r, x);
      VFinishSettles(sp, req, r', y);
      VFinishWord(sp, req, r, x);
      VFinishWord(sp, req, r', y);
      SameFaultsOf(y, y');
      hide Tracks, AdExtends, VFinish, Fetch;
      TracksPut(sp, m, x, y, s, x', y');
    }
  }

  lemma VFinishWord(sp: Space, req: Request, r: VReached, m: Store)
    requires r.VLeaf? && sp.vmode.Paged? && IsLeaf(r.pte)
    requires Fetch(m, Slot(r.addr, sp.vmode.format.PteSize())) == r.pte
    ensures var s := Slot(r.addr, sp.vmode.format.PteSize());
            && (forall t | t != s :: Fetch(VFinish(sp, req, r, m).1, t) == Fetch(m, t))
            && (VFinish(sp, req, r, m).0.VOk? ==>
                  Fetch(VFinish(sp, req, r, m).1, s) == if VSettled(req, r.pte) then r.pte else SetAd(r.pte, req.write && r.pte.W))
  {
    hide WellAligned, VTranslated, VPermits, VSettled;
    PutExtends(m, Slot(r.addr, sp.vmode.format.PteSize()), r.pte, req.write && r.pte.W);
  }

  predicate SameFirst(v: VResult, v': VResult) {
    v.VOk? && v'.VOk? && v' == v.(pte := v'.pte) && SameButAd(v.pte, v'.pte)
  }

  lemma SameFirsts(sp: Space, req: Request, r: VReached, r': VReached, m: Store, x: Store, y: Store)
    requires Tracks(sp, m, x, y) && SameSearch(r, r')
    requires r.VLeaf? ==> sp.vmode.Paged? && (req.write && r.pte.W && r.pte.D ==> r'.pte.D) && (r.pte.A ==> r'.pte.A)
    requires VFinish(sp, req, r, x).0.VOk?
    ensures SameFirst(VFinish(sp, req, r, x).0, VFinish(sp, req, r', y).0)
  {
    hide Tracks, WellAligned, VPermits, VTranslated;
    if !r.VStop? { TranslatedAlike(sp, req.iova, r, r'); }
    if r.VLeaf? {
      FaultsAlike(sp, m, x, y, r.addr);
      ChecksAlike(sp.vmode.format, req, r.level, r.pte, r'.pte);
    }
  }

  lemma ChecksAlike(f: Format, req: Request, i: nat, p: Pte, q: Pte)
    requires SameButAd(p, q)
    ensures VPermits(req, p) == VPermits(req, q) && WellAligned(f, i, p) == WellAligned(f, i, q)
  {
  }

  lemma TranslatedAlike(sp: Space, iova: nat, r: VReached, r': VReached)
    requires SameSearch(r, r') && !r.VStop? && (r.VLeaf? ==> sp.vmode.Paged?)
    ensures var (v, v') := (VTranslated(sp, iova, r), VTranslated(sp, iova, r'));
            v' == v.(pte := v'.pte) && SameButAd(v.pte, v'.pte)
  {
    if r.VLeaf? { NapotAlike(r.pte, r'.pte, iova); }
    hide Splice, NapotPpn;
  }

  lemma VWalkTracks(sp: Space, req: Request, m: Store, y: Store)
    requires AdExtends(m, y) && VWalk(sp, req, m).0.VOk?
    requires DirtyInTime(sp, req, m)
    ensures SameFirst(VWalk(sp, req, m).0, VWalk(sp, req, y).0)
    ensures Tracks(sp, m, VWalk(sp, req, m).1, VWalk(sp, req, y).1)
  {
    TracksAtStart(sp, m, y);
    hide VReach, VFinish, Tracks, AdExtends, Fetch;
    var (r, x1) := VReach(sp, req.iova, m);
    var (r', y1) := VReach(sp, req.iova, y);
    VSearchExtends(sp, req.iova, m);
    VFinishSettles(sp, req, r, x1);
    VReachTracks(sp, req.iova, m, m, y);
    VSearchExtends(sp, req.iova, y);
    if r.VLeaf? { TracksAt(sp, m, x1, y1, Slot(r.addr, sp.vmode.format.PteSize())); }
    VFinishTracks(sp, req, r, r', m, x1, y1);
  }

  lemma TracksAtStart(sp: Space, m: Store, y: Store)
    requires AdExtends(m, y)
    ensures Tracks(sp, m, m, y)
  {
    forall s ensures Follows(sp, m, s, Fetch(m, s), Fetch(y, s)) { AdAt(m, y, s); }
  }

  predicate SameTranslation(o: Outcome, o': Outcome) {
    && o.Done? && o'.Done? && o' == o.(vpte := o'.vpte, gpte := o'.gpte)
    && SameButAd(o.vpte, o'.vpte) && SameButAd(o.gpte, o'.gpte)
  }

  /** Accessed/dirty updates of any requests, by any walks, never take a translation away: it keeps its
      address, size, permissions and memory type, if the first-stage leaf is dirty in time. */
  lemma TranslationPreserved(sp: Space, req: Request, m: Store, n: Store)
    requires AdExtends(m, n) && Translation(sp, req, m).0.Done?
    requires DirtyInTime(sp, req, m)
    ensures SameTranslation(Translation(sp, req, m).0, Translation(sp, req, n).0)
  {
    hide VWalk, GWalk, AdExtends, Tracks, Splice;
    VWalkTracks(sp, req, m, n);
    var (v, x1) := VWalk(sp, req, m);
    GWalkTracks(sp, Explicit(req), v.gpa, m, x1, VWalk(sp, req, n).1);
  }

  /** In particular, one request never takes another's translation away. */
  lemma TranslationSurvivesRequest(sp: Space, req: Request, other: Space, otherReq: Request, m: Store)
    requires Translation(sp, req, m).0.Done?
    requires DirtyInTime(sp, req, m)
    ensures SameTranslation(Translation(sp, req, m).0, Translation(sp, req, Translation(other, otherReq, m).1).0)
  {
    hide Translation, SameTranslation;
    TranslationOnlySetsAd(other, otherReq, m);
    TranslationPreserved(sp, req, m, Translation(other, otherReq, m).1);
  }

  // ---------------------------------------------------------------- exactly when

  /** An implicit second-stage walk leaves a word alone whose A bit is set, when SADE is clear. */
  lemma AccessedIsLeft(sp: Space, gpa: nat, m: Store, t: Slot)
    requires !sp.sade && Fetch(m, t).A
    ensures Fetch(GWalk(sp, IMPLICIT, gpa, m).1, t) == Fetch(m, t)
  {
    hide GReach, WellAligned, GTranslated;
    GLeafInMemory(sp, gpa, m);
  }

  lemma {:induction false} SearchLeavesAccessed(sp: Space, vpn: seq<nat>, i: nat, a: nat, global: bool, m: Store, t: Slot)
    requires sp.vmode.Paged? && i < |vpn| && !sp.sade && Fetch(m, t).A
    ensures Fetch(VReachFrom(sp, vpn, i, a, global, m).1, t) == Fetch(m, t)
    decreases i
  {
    var entry := EntrySlot(sp.vmode.format, vpn, i, a).addr;
    AccessedIsLeft(sp, entry, m, t);
    hide GWalk, Fetch, Malformed, BadPointer, Pow2;
    var (g, m1) := GWalk(sp, IMPLICIT, entry, m);
    if g.GOk? && i > 0 {
      var p := Fetch(m1, Slot(g.pa, sp.vmode.format.PteSize()));
      SearchLeavesAccessed(sp, vpn, i - 1, p.PPN * PAGE_SIZE, global || p.G, m1, t);
    }
  }

  /** Where the leaf is not dirty in time, setting its A bit beforehand takes the translation away: the
      walk then has no reason to set D on the way to the leaf. */
  lemma AccessedTooEarly(sp: Space, req: Request, m: Store) returns (n: Store)
    requires Translation(sp, req, m).0.Done? && !DirtyInTime(sp, req, m)
    ensures AdExtends(m, n) && !Translation(sp, req, n).0.Done?
  {
    hide Translation, VFinish, GWalk, Fetch, AdExtends, Tracks, VReach;
    var (r, x) := VReach(sp, req.iova, m);
    var s := Slot(r.addr, sp.vmode.format.PteSize());
    LeafWasClean(sp, req, m);
    n := Put(m, s, SetAd(Fetch(m, s), false));
    PutExtends(m, s, Fetch(m, s), false);
    TracksAtStart(sp, m, n);
    VReachTracks(sp, req.iova, m, m, n);
    ReachLeavesAccessed(sp, req.iova, n, s);
    VSearchExtends(sp, req.iova, n);
    CleanLeafFaults(sp, req, n, s);
  }

  lemma ReachLeavesAccessed(sp: Space, iova: nat, m: Store, t: Slot)
    requires sp.vmode.Paged? && !sp.sade && Fetch(m, t).A
    ensures Fetch(VReach(sp, iova, m).1, t) == Fetch(m, t)
  {
    var f := sp.vmode.format;
    SearchLeavesAccessed(sp, Indices(f, 0, iova), f.Levels() - 1, sp.vppn * PAGE_SIZE, false, m, t);
    hide VReachFrom, Fetch;
  }

  /** The leaf was a clean leaf in memory, and only the walk made it dirty. */
  lemma LeafWasClean(sp: Space, req: Request, m: Store)
    requires Translation(sp, req, m).0.Done? && !DirtyInTime(sp, req, m)
    ensures var r := VReach(sp, req.iova, m).0;
            && r.VLeaf? && sp.vmode.Paged? && !sp.sade && req.write && r.pte.W
            && IsLeaf(Fetch(m, Slot(r.addr, sp.vmode.format.PteSize())))
            && !Fetch(m, Slot(r.addr, sp.vmode.format.PteSize())).D
  {
    var (r, x) := VReach(sp, req.iova, m);
    VSearchExtends(sp, req.iova, m);
    var s := Slot(r.addr, sp.vmode.format.PteSize());
    AdAt(m, x, s);
    hide VReach, AdExtends, Fetch, WellAligned, VPermits;
  }

  /** A clean leaf and a write give a page fault where the walk may not set D. */
  lemma CleanLeafFaults(sp: Space, req: Request, n: Store, s: Slot)
    requires sp.vmode.Paged? && !sp.sade && req.write
    requires var (r, x) := VReach(sp, req.iova, n);
             r.VLeaf? && s == Slot(r.addr, sp.vmode.format.PteSize()) && Fetch(x, s) == r.pte && r.pte.W && !r.pte.D
    ensures !Translation(sp, req, n).0.Done?
  {
    hide VReach, Fetch, WellAligned, VPermits;
  }

  /** A translation survives every such update exactly when its first-stage leaf is dirty in time. */
  lemma TranslationPreservedIff(sp: Space, req: Request, m: Store)
    requires Translation(sp, req, m).0.Done?
    ensures (forall n | AdExtends(m, n) :: SameTranslation(Translation(sp, req, m).0, Translation(sp, req, n).0)) <==>
            DirtyInTime(sp, req, m)
  {
    hide Translation, DirtyInTime, AdExtends;
    if DirtyInTime(sp, req, m) {
      forall n | AdExtends(m, n) ensures SameTranslation(Translation(sp, req, m).0, Translation(sp, req, n).0) {
        TranslationPreserved(sp, req, m, n);
      }
    } else {
      var n := AccessedTooEarly(sp, req, m);
    }
  }

  // ---------------------------------------------------------------- an example

  const ROOT_PAGE: nat := 4

  /** A word that maps the first 4 MiB of both stages to themselves. */
  const SELF_MAP := ZERO_PTE.(V := true, R := true, W := true, X := true, U := true)

  const ROOT_SLOT := Slot(ROOT_PAGE * PAGE_SIZE, 4)

  /** Sv32 in both stages, both rooted in the same pages, updates on in the second stage only. */
  const SELF_MAPPED := Space(34, false, false, false, true, true, Paged(Sv32), ROOT_PAGE, 12, Paged(Sv32), ROOT_PAGE, 12)

  const CLEAN := Store(map[ROOT_SLOT := SELF_MAP], {}, {}, {})

  const WRITE_AT_0 := Request(0, true, false, true, false, false, false)

  lemma IndexZero(widening: nat, x: nat)
    requires x < 0x40_0000
    ensures Vpn(Sv32, widening, 1, x) == 0
  {
    assert Pow2(22) == 1024 * Pow2(12) by { SmallPowers(); Pow2Plus8(12); Pow2Plus8(14); }
    SmallPowers();
    ShrZero(x, 22);
    LowOfZero(10 + widening);
  }

  /** Another device of the VM, without a first stage, and its read of address 0. */
  const READER := SELF_MAPPED.(vmode := Bare)

  const READ_AT_0 := Request(0, true, true, false, false, false, false)

  /** Memory with `p` in the root word. */
  function Holding(p: Pte): Store { Store(map[ROOT_SLOT := p], {}, {}, {}) }

  lemma InFirstRegion(x: nat)
    requires x < 0x40_0000
    ensures Splice(0, x, 22) == x && Pow2(34) == 0x4_0000_0000 && Low(0, 10) == 0
  {
    assert Pow2(22) == 1024 * Pow2(12) by { SmallPowers(); Pow2Plus8(12); Pow2Plus8(14); }
    SmallPowers();
    assert Pow2(34) == 4 * Pow2(32) by { Pow2Of64(); }
    Pow2Of64();
    LowOfZero(10);
    LowOfZero(22);
    SpliceParts(0, x, 22);
    ShrZero(x, 22);
  }

  /** The second stage maps the first 4 MiB to themselves, setting A and perhaps D in the root word. */
  lemma ExampleSecondStage(sp: Space, acc: Access, gpa: nat, p: Pte)
    requires sp == SELF_MAPPED.(vmode := sp.vmode) && gpa < 0x40_0000 && SameButAd(SELF_MAP, p)
    requires acc.check && (acc.read || acc.write) && !acc.exec
    ensures GWalk(sp, acc, gpa, Holding(p)) ==
              (GOk(gpa, 22, p), Holding(if GSettled(sp, acc, p) then p else SetAd(p, acc.write || acc.implicit)))
  {
    hide Pow2, Low, Splice, Shr, GetBits;
    IndexZero(3, gpa);
    InFirstRegion(gpa);
    var vpn := Indices(Sv32, 3, gpa);
    assert EntrySlot(Sv32, vpn, 1, ROOT_PAGE * PAGE_SIZE) == ROOT_SLOT;
    assert GReachFrom(sp, vpn, 1, ROOT_PAGE * PAGE_SIZE, Holding(p)) == GLeaf(ROOT_SLOT.addr, p, 1);
    var q := SetAd(p, acc.write || acc.implicit);
    assert Put(Holding(p), ROOT_SLOT, q) == Holding(q);
  }

  /** A write to address 0 through a word that is its own table's second-stage leaf. The walk for the
      table sets A and D in it, and so the write succeeds; where A was set before, D stays clear and
      the write faults. */
  lemma SelfMapExample()
    ensures ValidSpace(SELF_MAPPED) && Translation(SELF_MAPPED, WRITE_AT_0, CLEAN).0.Done?
    ensures !DirtyInTime(SELF_MAPPED, WRITE_AT_0, CLEAN)
    ensures Translation(SELF_MAPPED, WRITE_AT_0, Holding(SetAd(SELF_MAP, false))).0 == Faulted(15, 0)
  {
    AccessedFaults();
    var dirty := SetAd(SELF_MAP, true);
    ExampleSecondStage(SELF_MAPPED, IMPLICIT, ROOT_PAGE * PAGE_SIZE, SELF_MAP);
    ExampleSecondStage(SELF_MAPPED, Explicit(WRITE_AT_0), 0, dirty);
    ExampleFirstStage(SELF_MAP, dirty);
    ExampleLeaf(dirty);
    hide GWalk, VReach, Splice, VWalk;
  }

  /** A read by another device does that: it succeeds, setting A in the word, and after it the write
      that would have succeeded gets a page fault. */
  lemma ReadTakesWriteAway()
    ensures ValidSpace(READER)
    ensures Translation(READER, READ_AT_0, CLEAN) == (Done(0, 12, V_BARE_PTE.(PBMT := 0), SELF_MAP), Holding(SetAd(SELF_MAP, false)))
    ensures Translation(SELF_MAPPED, WRITE_AT_0, CLEAN).0.Done?
    ensures Translation(SELF_MAPPED, WRITE_AT_0, Translation(READER, READ_AT_0, CLEAN).1).0 == Faulted(15, 0)
  {
    SelfMapExample();
    ExampleRead();
  }

  lemma AccessedFaults()
    ensures Translation(SELF_MAPPED, WRITE_AT_0, Holding(SetAd(SELF_MAP, false))).0 == Faulted(15, 0)
  {
    var read := SetAd(SELF_MAP, false);
    ExampleSecondStage(SELF_MAPPED, IMPLICIT, ROOT_PAGE * PAGE_SIZE, read);
    ExampleFirstStage(read, read);
    ExampleFault(read);
  }

  lemma ExampleRead()
    ensures Translation(READER, READ_AT_0, CLEAN) == (Done(0, 12, V_BARE_PTE.(PBMT := 0), SELF_MAP), Holding(SetAd(SELF_MAP, false)))
  {
    ExampleSecondStage(READER, Explicit(READ_AT_0), 0, SELF_MAP);
    SpliceParts(0, 0, 12);
    LowOfZero(12);
    hide GWalk, Splice;
  }

  lemma ExampleFault(read: Pte)
    requires read == SetAd(SELF_MAP, false)
    requires VReach(SELF_MAPPED, 0, Holding(read)) == (VLeaf(ROOT_SLOT.addr, read, 1, false, true, ROOT_PAGE * PAGE_SIZE), Holding(read))
    ensures Translation(SELF_MAPPED, WRITE_AT_0, Holding(read)).0 == Faulted(15, 0)
  {
    hide VReach, GWalk, Splice, WellAligned;
  }

  lemma ExampleLeaf(dirty: Pte)
    requires dirty == SetAd(SELF_MAP, true)
    requires VReach(SELF_MAPPED, 0, CLEAN) == (VLeaf(ROOT_SLOT.addr, dirty, 1, false, true, ROOT_PAGE * PAGE_SIZE), Holding(dirty))
    ensures var (v, x) := VWalk(SELF_MAPPED, WRITE_AT_0, CLEAN); v.VOk? && v.gpa == 0 && x == Holding(dirty)
  {
    hide VReach, Low, Splice, Pow2, Shr;
    InFirstRegion(0);
  }

  /** The first stage finds the root word as the walk for its table leaves it. */
  lemma ExampleFirstStage(p: Pte, q: Pte)
    requires SameButAd(SELF_MAP, p) && SameButAd(SELF_MAP, q)
    requires GWalk(SELF_MAPPED, IMPLICIT, ROOT_PAGE * PAGE_SIZE, Holding(p)) == (GOk(ROOT_PAGE * PAGE_SIZE, 22, p), Holding(q))
    ensures VReach(SELF_MAPPED, 0, Holding(p)) == (VLeaf(ROOT_SLOT.addr, q, 1, false, true, ROOT_PAGE * PAGE_SIZE), Holding(q))
  {
    hide GWalk, Pow2, Low, Splice, Shr, GetBits;
    IndexZero(0, 0);
    InFirstRegion(0);
    var vpn := Indices(Sv32, 0, 0);
    assert EntrySlot(Sv32, vpn, 1, ROOT_PAGE * PAGE_SIZE) == ROOT_SLOT;
    assert VReachFrom(SELF_MAPPED, vpn, 1, ROOT_PAGE * PAGE_SIZE, false, Holding(p)) ==
           (VLeaf(ROOT_SLOT.addr, q, 1, false, true, ROOT_PAGE * PAGE_SIZE), Holding(q));
  }
}
