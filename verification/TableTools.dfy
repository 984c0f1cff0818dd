/** The code of the table library: the page allocator, the second-stage builder, and the simple walk
    that test software compares with the IOMMU's. */
module TableTools {
  import opened Bits
  import opened Common
  import opened PageTables
  import opened SecondStage
  import opened TableBuilder
  import Translate

  // ---------------------------------------------------------------- the allocator

  /** The first multiple of 2^k not below `x`. */
  function RoundedUp(x: nat, k: nat): nat { if Low(x, k) == 0 then x else x - Low(x, k) + Pow2(k) }

  lemma RoundedUpIsLeast(x: nat, k: nat)
    ensures var r := RoundedUp(x, k);
            && x <= r < x + Pow2(k) && Low(r, k) == 0
            && forall y: nat | x <= y && Low(y, k) == 0 :: r <= y
  {
    LowBound(x, k);
    NextMultiple(x, k, 0);
    hide Low, Shr, Pow2;
    forall y: nat | x <= y && Low(y, k) == 0 ensures RoundedUp(x, k) <= y { NoMultipleBetween(x, y, k); }
  }

  lemma NextMultiple(x: nat, k: nat, r: nat)
    requires r < Pow2(k)
    ensures Low(x - Low(x, k) + Pow2(k) + r, k) == r
  {
    hide Low, Shr, Pow2;
    var q, d := Shr(x, k), Pow2(k);
    ShrLowMeaning(x, k);
    ShrOfMultiple(q + 1, k, r);
    OneMore(q, d);
  }

  lemma OneMore(q: nat, d: nat)
    ensures (q + 1) * d == q * d + d
  {
  }

  lemma NoMultipleBetween(x: nat, y: nat, k: nat)
    requires x <= y && Low(y, k) == 0
    ensures RoundedUp(x, k) <= y
  {
    ShrLowMeaning(x, k);
    ShrLowMeaning(y, k);
    ShrMono(x, y, k);
    hide Low, Shr, Pow2;
    if Shr(x, k) < Shr(y, k) {
      MultipleAbove(Shr(x, k), Shr(y, k), Pow2(k));
      OneMore(Shr(x, k), Pow2(k));
    }
  }

  lemma MultipleAbove(a: nat, b: nat, d: nat)
    requires a < b
    ensures (a + 1) * d <= b * d
  {
    assert b * d == (a + 1) * d + (b - a - 1) * d;
  }

  function ClearPages(m: Store, page: nat, n: nat): Store {
    m.(words := map s | s in m.words && !(page * PAGE_SIZE <= s.addr < (page + n) * PAGE_SIZE) :: m.words[s])
  }

  /** The indices as ORing them into the root address at page `root` uses them: an Sv32x4 index that runs
      beyond the 16 KiB root adds a bit that the address may have already. */
  function Folded(f: Format, vpn: seq<nat>, root: nat): (v: seq<nat>)
    requires |vpn| == f.Levels()
    ensures |v| == |vpn|
  {
    var top := f.Levels() - 1;
    if vpn[top] * f.PteSize() >= 4 * PAGE_SIZE && root / 4 % 2 == 1 && vpn[top] * f.PteSize() < 8 * PAGE_SIZE
    then vpn[top := vpn[top] - 4 * PAGE_SIZE / f.PteSize()]
    else vpn
  }

  /** What `get_bits` leaves of any address: the low indices stay in their tables, the root index in twice its own. */
  predicate Extracted(f: Format, vpn: seq<nat>) {
    && |vpn| == f.Levels()
    && (forall i | 0 <= i < f.Levels() - 1 :: vpn[i] * f.PteSize() < PAGE_SIZE)
    && vpn[f.Levels() - 1] * f.PteSize() < if f.Sv32? then 8 * PAGE_SIZE else 4 * PAGE_SIZE
  }

  lemma AnyIndices(f: Format, addr: nat)
    ensures Extracted(f, Indices(f, f.RootWidening(), addr))
  {
    SmallPowers();
    if f.Sv32? {
      FieldBound(21, 12, addr);
      FieldBound(34, 22, addr);
      assert Pow2(13) == 2 * Pow2(12);
    } else {
      SecondStageIndices(f, addr);
    }
  }

  lemma {:induction false} OrAssociates(x: nat, y: nat, z: nat)
    ensures Or(Or(x, y), z) == Or(x, Or(y, z))
  {
    if x != 0 && y != 0 && z != 0 {
      OrAssociates(x / 2, y / 2, z / 2);
      OrParts(x, y);
      OrParts(y, z);
    }
  }

  lemma OrParts(x: nat, y: nat)
    ensures Or(x, y) / 2 == Or(x / 2, y / 2) && Or(x, y) % 2 == (if x % 2 == 1 || y % 2 == 1 then 1 else 0)
    ensures Or(x, y) == 0 <==> x == 0 && y == 0
  {
  }

  lemma {:induction false} OrAbsorbsBit(x: nat, b: nat)
    requires Shr(x, b) % 2 == 1
    ensures Or(x, Pow2(b)) == x
  {
    if b > 0 { OrAbsorbsBit(x / 2, b - 1); }
    else { OrWithZero(x / 2); }
  }

  lemma OrWithZero(x: nat)
    ensures Or(x, 0) == x
  {
  }

  /** An offset beyond the root is added, but for the bit it shares with the address of the root. */
  lemma BeyondRoot(root: nat, off: nat)
    requires root % 4 == 0 && 4 * PAGE_SIZE <= off < 8 * PAGE_SIZE
    ensures Or(root * PAGE_SIZE, off) == root * PAGE_SIZE + off - if root / 4 % 2 == 1 then 4 * PAGE_SIZE else 0
  {
    hide Or, Low, Shr, Pow2;
    SmallPowers();
    var q, x, rest := root / 4, root * PAGE_SIZE, off - 4 * PAGE_SIZE;
    ShrOfMultiple(q, 14, 0);
    if q % 2 == 1 {
      BitAndRest(rest);
      OrAbsorbsBit(x, 14);
      OrAssociates(x, Pow2(14), rest);
      OrIsPlus(x, rest, 14);
    } else {
      TwicePow(14);
      ShrOfMultiple(q / 2, 15, 0);
      OrIsPlus(x, off, 15);
    }
  }

  lemma TwicePow(k: nat)
    ensures Pow2(k + 1) == 2 * Pow2(k)
  {
  }

  lemma BitAndRest(rest: nat)
    requires rest < Pow2(14)
    ensures Or(Pow2(14), rest) == Pow2(14) + rest
  {
    hide Or, Low, Shr, Pow2;
    ShrOfMultiple(1, 14, 0);
    OrIsPlus(Pow2(14), rest, 14);
  }

  /** `a | (vpn[i] * PTESIZE)` */
  method AddressEntry(f: Format, vpn: seq<nat>, i: nat, ghost root: nat, table: nat) returns (s: Slot)
    requires Extracted(f, vpn) && i < |vpn| && (i == f.Levels() - 1 ==> table == root && root % 4 == 0)
    ensures s == EntrySlot(f, Folded(f, vpn, root), i, table * PAGE_SIZE)
  {
    hide Or;
    if vpn[i] * f.PteSize() < 4 * PAGE_SIZE { EntryAddress(table, vpn[i] * f.PteSize(), i == f.Levels() - 1); }
    else { BeyondRoot(root, vpn[i] * f.PteSize()); }
    s := Slot(Or(table * PAGE_SIZE, vpn[i] * f.PteSize()), f.PteSize());
  }

  /** The indices the code uses for any address; those of an address of the mode's width are its path. */
  function CodePath(sp: Space, gpa: nat): (v: seq<nat>)
    requires sp.gmode.Paged?
    ensures |v| == sp.gmode.format.Levels()
  {
    Folded(sp.gmode.format, Path(sp, gpa), sp.gppn)
  }

  lemma CodePathFits(sp: Space, gpa: nat)
    requires sp.gmode.Paged? && ValidSpace(sp) && GpaFits(sp, gpa)
    ensures CodePath(sp, gpa) == Path(sp, gpa)
  {
    PathForTable(sp, gpa);
    hide Indices;
  }

  class Allocator {
    var nextFreePage: nat

    constructor (first: nat)
      ensures nextFreePage == first
    {
      nextFreePage := first;
    }

    /** `get_free_ppn` of 2^k pages */
    method GetFreePpn(mem: Memory, k: nat) returns (page: nat)
      requires k < 64 && nextFreePage + Pow2(k) < TWO_64
      modifies this, mem
      ensures page == RoundedUp(old(nextFreePage), k) && nextFreePage == page + Pow2(k)
      ensures mem.store == ClearPages(old(mem.store), page, Pow2(k))
    {
      hide And, Low, Shr, Pow2, Not64, RoundedUp, ClearPages;
      RoundsUp(nextFreePage, k);
      var n := Pow2(k);
      if And(nextFreePage, n - 1) != 0 {
        nextFreePage := nextFreePage + (n - 1);
        nextFreePage := And(nextFreePage, Not64(n - 1));
      }
      page := nextFreePage;
      nextFreePage := nextFreePage + n;
      mem.store := ClearPages(mem.store, page, n);
    }

    /** `add_g_stage_pte`, for any address */
    method AddGStagePte(mem: Memory, sp: Space, gpa: U64, leaf: Pte, level: nat) returns (addr: Option<nat>)
      requires ValidSpace(sp) && sp.gmode.Paged?
      requires nextFreePage + sp.gmode.format.Levels() < TWO_64
      modifies this, mem
      ensures Built(mem.store, nextFreePage, addr) == BuildCoded(sp, gpa, level, leaf, old(mem.store), old(nextFreePage))
      ensures GpaFits(sp, gpa) ==>
                Built(mem.store, nextFreePage, addr) == Build(sp, gpa, level, leaf, old(mem.store), old(nextFreePage))
    {
      if GpaFits(sp, gpa) { CodePathFits(sp, gpa); }
      var f := sp.gmode.format;
      var vpn := ExtractVpn(f, gpa);
      AnyIndices(f, gpa);
      ghost var path := CodePath(sp, gpa);
      hide BuildFrom, SteppedDown, EntrySlot, Indices, ValidSpace, Folded;
      var i: nat := f.Levels() - 1;
      var table: nat := sp.gppn;
      while i > level
        invariant i < f.Levels() && (i == f.Levels() - 1 ==> table == sp.gppn)
        invariant nextFreePage + i < TWO_64 - 1
        invariant BuildFrom(f, path, i, level, table * PAGE_SIZE, leaf, mem.store, nextFreePage) ==
                  BuildCoded(sp, gpa, level, leaf, old(mem.store), old(nextFreePage))
      {
        var s := AddressEntry(f, vpn, i, sp.gppn, table);
        BuildSteps(f, path, i, level, table * PAGE_SIZE, leaf, mem.store, nextFreePage);
        var entry := FollowOrLink(mem, s);
        if entry.None? { return None; }
        i := i - 1;
        table := entry.value.PPN;
      }
      var s := AddressEntry(f, vpn, i, sp.gppn, table);
      BuildEnds(f, path, i, level, table * PAGE_SIZE, leaf, mem.store, nextFreePage);
      var status := mem.WriteMemory(s.addr, s.size, leaf);
      addr := if status.Okay? then Some(s.addr) else None;
    }

    /** The loop's body: the entry at `s`, pointed to a free page if it was invalid */
    method FollowOrLink(mem: Memory, s: Slot) returns (entry: Option<Pte>)
      requires nextFreePage + 1 < TWO_64
      modifies this, mem
      ensures (entry, mem.store, nextFreePage) == SteppedDown(old(mem.store), old(nextFreePage), s)
      ensures old(nextFreePage) <= nextFreePage <= old(nextFreePage) + 1
    {
      var status, pte := mem.ReadMemory(s.addr, s.size);
      if !status.Okay? { return None; }
      if !pte.V {
        OnePage(mem.store, nextFreePage);
        var page := GetFreePpn(mem, 0);
        pte := pte.(V := true);
        pte := pte.(PPN := page % 0x1000_0000_0000);
        status := mem.WriteMemory(s.addr, s.size, pte);
        if !status.Okay? { return None; }
      }
      entry := Some(pte);
    }
  }

  /** `add_g_stage_pte` with the indices of the code */
  function BuildCoded(sp: Space, gpa: nat, level: nat, leaf: Pte, m: Store, next: nat): Built
    requires sp.gmode.Paged?
  {
    BuildFrom(sp.gmode.format, CodePath(sp, gpa), sp.gmode.format.Levels() - 1, level, sp.gppn * PAGE_SIZE, leaf, m, next)
  }

  /** One level of the builder: the entry to follow, the memory and the next free page. */
  function SteppedDown(m: Store, next: nat, s: Slot): (Option<Pte>, Store, nat) {
    if !LoadStatus(m, s.addr).Okay? then (None, m, next)
    else
      var p := Fetch(m, s);
      if p.V then (Some(p), m, next)
      else if !StoreStatus(m, s.addr).Okay? then (None, ClearPage(m, next), next + 1)
      else (Some(Linked(p, next)), Put(ClearPage(m, next), s, Linked(p, next)), next + 1)
  }

  lemma BuildSteps(f: Format, vpn: seq<nat>, i: nat, level: nat, a: nat, leaf: Pte, m: Store, next: nat)
    requires level < i < |vpn|
    ensures var (entry, m', next') := SteppedDown(m, next, EntrySlot(f, vpn, i, a));
            BuildFrom(f, vpn, i, level, a, leaf, m, next) ==
              if entry.None? then Built(m', next', None)
              else BuildFrom(f, vpn, i - 1, level, entry.value.PPN * PAGE_SIZE, leaf, m', next')
  {
    hide EntrySlot, Fetch, Linked, ClearPage;
  }

  lemma BuildEnds(f: Format, vpn: seq<nat>, i: nat, level: nat, a: nat, leaf: Pte, m: Store, next: nat)
    requires i < |vpn| && i <= level
    ensures var s := EntrySlot(f, vpn, i, a);
            BuildFrom(f, vpn, i, level, a, leaf, m, next) ==
              if StoreStatus(m, s.addr).Okay? then Built(Put(m, s, leaf), next, Some(s.addr)) else Built(m, next, None)
  {
    hide EntrySlot;
  }

  lemma OnePage(m: Store, page: nat)
    ensures Pow2(0) == 1 && RoundedUp(page, 0) == page && ClearPages(m, page, 1) == ClearPage(m, page)
  {
  }

  /** Adding the mask and clearing its bits rounds up to a multiple, if the number is none. */
  lemma RoundsUp(x: nat, k: nat)
    requires k < 64 && x + Pow2(k) < TWO_64
    ensures 0 < Pow2(k) <= TWO_64
    ensures RoundedUp(x, k) == if And(x, Pow2(k) - 1) != 0 then And(x + (Pow2(k) - 1), Not64(Pow2(k) - 1)) else x
  {
    hide Low, Shr, Pow2, And;
    Pow2Of64();
    LowBound(x, k);
    AndLowMask(x, k);
    if Low(x, k) != 0 {
      NextMultiple(x, k, Low(x, k) - 1);
      AndHighMask(x + (Pow2(k) - 1), k, 64);
    }
  }

  // ---------------------------------------------------------------- the simple walk

  /** The loop of `translate_gpa` from the table at `a`, level `i`: the address of the leaf and the
      translation. It ends at a pointer at level 0, where the code's index has no value left to take. */
  function SimpleFrom(f: Format, vpn: seq<nat>, i: nat, a: nat, gpa: nat, m: Store): Option<(nat, nat)>
    requires i < |vpn|
    decreases i
  {
    var s := EntrySlot(f, vpn, i, a);
    if !LoadStatus(m, s.addr).Okay? then None
    else
      var p := Fetch(m, s);
      if !p.V then None
      else if IsLeaf(p) then Some((s.addr, Splice(p.PPN * PAGE_SIZE, gpa, f.Shift(i))))
      else if i == 0 then None
      else SimpleFrom(f, vpn, i - 1, p.PPN * PAGE_SIZE, gpa, m)
  }

  /** `translate_gpa` of a paged second stage */
  function SimpleWalk(sp: Space, gpa: nat, m: Store): Option<(nat, nat)>
    requires sp.gmode.Paged?
  {
    SimpleFrom(sp.gmode.format, Path(sp, gpa), sp.gmode.format.Levels() - 1, sp.gppn * PAGE_SIZE, gpa, m)
  }

  /** The same with the indices of the code */
  function CodedWalk(sp: Space, gpa: nat, m: Store): Option<(nat, nat)>
    requires sp.gmode.Paged?
  {
    SimpleFrom(sp.gmode.format, CodePath(sp, gpa), sp.gmode.format.Levels() - 1, sp.gppn * PAGE_SIZE, gpa, m)
  }

  /** `translate_gpa`, for any address; `was` is what the result location holds before. A Bare second stage has
      no leaf to return the address of. */
  method TranslateGpa(mem: Memory, sp: Space, gpa: U64, was: nat) returns (addr: Option<nat>, spa: nat)
    requires ValidSpace(sp)
    ensures sp.gmode.Bare? ==> addr.None? && spa == gpa
    ensures sp.gmode.Paged? ==>
              match CodedWalk(sp, gpa, mem.store)
              case Some(r) => addr == Some(r.0) && spa == r.1
              case None => addr.None? && spa == was
    ensures sp.gmode.Paged? && GpaFits(sp, gpa) ==> CodedWalk(sp, gpa, mem.store) == SimpleWalk(sp, gpa, mem.store)
  {
    if sp.gmode.Bare? { return None, gpa; }
    if GpaFits(sp, gpa) { CodePathFits(sp, gpa); }
    var f := sp.gmode.format;
    var vpn := ExtractVpn(f, gpa);
    AnyIndices(f, gpa);
    ghost var path := CodePath(sp, gpa);
    SizeOfRoot(f);
    hide EntrySlot, Indices, Splice, Pow2, Fetch, ValidSpace, Folded;
    var i: nat := f.Levels() - 1;
    var table: nat := sp.gppn;
    var pageSize := match f case Sv32 => 0x40_0000 case Sv39 => 0x4000_0000 case Sv48 => 0x80_0000_0000 case Sv57 => 0x1_0000_0000_0000;
    addr, spa := None, was;
    while true
      invariant i < f.Levels() && (i == f.Levels() - 1 ==> table == sp.gppn)
      invariant pageSize == Pow2(f.Shift(i))
      invariant addr == None && spa == was
      invariant SimpleFrom(f, path, i, table * PAGE_SIZE, gpa, mem.store) == CodedWalk(sp, gpa, mem.store)
      decreases i
    {
      var s := AddressEntry(f, vpn, i, sp.gppn, table);
      var status, pte := mem.ReadMemory(s.addr, s.size);
      if !status.Okay? || !pte.V { return; }
      if pte.R || pte.X {
        ShiftBound(f, i);
        MaskMergeIsSplice(pte.PPN * PAGE_SIZE, gpa, f.Shift(i));
        spa := MaskMerge(pte.PPN * PAGE_SIZE, gpa, pageSize);
        addr := Some(s.addr);
        return;
      }
      if i == 0 { return; }
      SizeBelow(f, i);
      i := i - 1;
      pageSize := if i == 0 then PAGE_SIZE else pageSize / 512;
      table := pte.PPN;
    }
  }

  lemma SizeOfRoot(f: Format)
    ensures Pow2(f.Shift(f.Levels() - 1)) ==
            match f case Sv32 => 0x40_0000 case Sv39 => 0x4000_0000 case Sv48 => 0x80_0000_0000 case Sv57 => 0x1_0000_0000_0000
  {
    Pow2Of64();
    Pow2Plus8(14);
    Pow2Plus8(22);
    Pow2Plus8(31);
    SmallPowers();
  }

  lemma SizeBelow(f: Format, i: nat)
    requires 0 < i < f.Levels()
    ensures Pow2(f.Shift(i - 1)) == if i == 1 then PAGE_SIZE else Pow2(f.Shift(i)) / 512
  {
    SmallPowers();
    if i > 1 { Pow2Plus8(f.Shift(i - 1)); }
  }

  /** Wherever the IOMMU's second stage succeeds on a leaf without NAPOT coding, the simple walk finds
      the same leaf and the same address. */
  lemma SimpleWalkAgrees(sp: Space, acc: Access, gpa: nat, m: Store)
    requires sp.gmode.Paged? && GWalk(sp, acc, gpa, m).0.GOk? && !GWalk(sp, acc, gpa, m).0.pte.N
    ensures GReach(sp, gpa, m).GLeaf?
    ensures SimpleWalk(sp, gpa, m) == Some((GReach(sp, gpa, m).addr, GWalk(sp, acc, gpa, m).0.pa))
  {
    hide Indices, Splice, GReachFrom, SimpleFrom, WellAligned, GPermits, GSettled, Put, SetAd;
    Translate.GLevelBound(sp, gpa, m);
    SimpleFindsLeaf(sp, Path(sp, gpa), sp.gmode.format.Levels() - 1, sp.gppn * PAGE_SIZE, gpa, m);
  }

  lemma {:induction false} SimpleFindsLeaf(sp: Space, vpn: seq<nat>, i: nat, a: nat, gpa: nat, m: Store)
    requires sp.gmode.Paged? && i < |vpn| && GReachFrom(sp, vpn, i, a, m).GLeaf?
    ensures var r := GReachFrom(sp, vpn, i, a, m);
            SimpleFrom(sp.gmode.format, vpn, i, a, gpa, m) ==
              Some((r.addr, Splice(r.pte.PPN * PAGE_SIZE, gpa, sp.gmode.format.Shift(r.level))))
    decreases i
  {
    hide Splice, Fetch, BadPointer;
    var p := Fetch(m, EntrySlot(sp.gmode.format, vpn, i, a));
    if !IsLeaf(p) { SimpleFindsLeaf(sp, vpn, i - 1, p.PPN * PAGE_SIZE, gpa, m); }
  }

  /** A built table translates: after `add_g_stage_pte` the simple walk and the IOMMU's second stage
      both take every address of the region to the new leaf. */
  lemma BuildThenTranslate(sp: Space, gpa: nat, x: nat, level: nat, leaf: Pte, m: Store, next: nat, acc: Access)
    requires sp.gmode.Paged? && GpaFits(sp, gpa) && GpaFits(sp, x) && level < sp.gmode.format.Levels()
    requires MayBuild(sp, Path(sp, gpa), level, leaf, m, next) && Room(sp, next, sp.gmode.format.Levels() - 1 - level)
    requires Shr(x, sp.gmode.format.Shift(level)) == Shr(gpa, sp.gmode.format.Shift(level))
    requires !leaf.N && WellAligned(sp.gmode.format, level, leaf) && GPermits(acc, leaf) && GSettled(sp, acc, leaf)
    ensures var b := Build(sp, gpa, level, leaf, m, next);
            GWalk(sp, acc, x, b.store) ==
              (GOk(Splice(leaf.PPN * PAGE_SIZE, x, sp.gmode.format.Shift(level)), sp.gmode.format.Shift(level), leaf), b.store)
    ensures var b := Build(sp, gpa, level, leaf, m, next);
            b.addr.Some? && SimpleWalk(sp, x, b.store) ==
              Some((b.addr.value, Splice(leaf.PPN * PAGE_SIZE, x, sp.gmode.format.Shift(level))))
  {
    hide Build, TreeShaped, Allocated, FreeIsClean, GReach, Splice, Path, WellAligned, GPermits, GSettled, SimpleWalk, CanPlace;
    BuildIsMapUpdate(sp, gpa, level, leaf, m, next);
    SimpleWalkAgrees(sp, acc, x, Build(sp, gpa, level, leaf, m, next).store);
  }
}
