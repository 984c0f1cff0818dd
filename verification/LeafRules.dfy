/** What the walks make of the words in memory, in terms of the bits of those words alone: which word is a
    pointer, which a leaf and what the leaf grants, where it leads, and what is written to it. */
module LeafRules {
  import opened Bits
  import opened Common
  import opened PageTables
  import opened SecondStage
  import opened TwoStage
  import opened Translate
  import opened AdUpdates
  import opened Superpages

  // ---------------------------------------------------------------- formats in numbers

  /** The bytes that a leaf at level `k` maps. */
  function PageBytes(f: Format, k: nat): nat {
    match k
    case 0 => 0x1000
    case 1 => if f.Sv32? then 0x40_0000 else 0x20_0000
    case 2 => 0x4000_0000
    case 3 => 0x80_0000_0000
    case _ => 0x1_0000_0000_0000
  }

  function EntryBytes(f: Format): nat { match f case Sv32 => 4 case _ => 8 }

  function Depth(f: Format): nat { match f case Sv32 => 2 case Sv39 => 3 case Sv48 => 4 case Sv57 => 5 }

  /** The entry of `addr` in its table at level `k`; a second-stage root is four pages, of eight for Sv32x4. */
  function IndexOf(f: Format, second: bool, k: nat, addr: nat): nat
    requires k < Depth(f)
  {
    var entries := if f.Sv32? then (if second && k == 1 then 0x2000 else 0x400) else if second && k == Depth(f) - 1 then 0x800 else 0x200;
    addr / PageBytes(f, k) % entries
  }

  /** An address of the second stage fits its format; with SXL it has 34 bits. */
  predicate InWidth(f: Format, sxl: bool, gpa: nat) {
    if sxl then gpa < 0x4_0000_0000
    else match f
         case Sv32 => true
         case Sv39 => gpa < 0x200_0000_0000
         case Sv48 => gpa < 0x4_0000_0000_0000
         case Sv57 => gpa < 0x800_0000_0000_0000
  }

  /** An address of the first stage repeats its top bit, or is of 32 bits. */
  predicate SignExtended(f: Format, iova: nat) {
    match f
    case Sv32 => iova < 0x1_0000_0000
    case Sv39 => iova < 0x40_0000_0000 || 0xFFFF_FFC0_0000_0000 <= iova
    case Sv48 => iova < 0x8000_0000_0000 || 0xFFFF_8000_0000_0000 <= iova
    case Sv57 => iova < 0x100_0000_0000_0000 || 0xFF00_0000_0000_0000 <= iova
  }

  lemma PageSizes(f: Format, k: nat)
    requires k < Depth(f)
    ensures Depth(f) == f.Levels() && EntryBytes(f) == f.PteSize() && Pow2(f.Shift(k)) == PageBytes(f, k)
  {
    SmallPowers();
    Pow2Of64();
    Pow2Plus8(14);
    Pow2Plus8(13);
    Pow2Plus8(22);
    Pow2Plus8(31);
  }

  lemma IndexIs(f: Format, second: bool, k: nat, addr: nat)
    requires k < Depth(f)
    ensures Vpn(f, if second then f.RootWidening() else 0, k, addr) == IndexOf(f, second, k, addr)
  {
    PageSizes(f, k);
    SmallPowers();
    var bits := f.IndexBits() + if second && k == f.Levels() - 1 then f.RootWidening() else 0;
    assert Pow2(13) == 2 * Pow2(12);
    hide Low, Shr, Pow2;
    LowIsRemainder(addr, f.Shift(k));
    LowIsRemainder(Shr(addr, f.Shift(k)), bits);
  }

  // ---------------------------------------------------------------- words and tables

  /** A tree of page tables: its format, which stage it is of, the page of its root, and what the machine has. */
  datatype Scheme = Scheme(format: Format, second: bool, root: nat, pas: nat, svpbmt: bool, svrsw: bool)

  /** Valid, and nothing that is reserved. */
  predicate Sane(s: Scheme, p: Pte) {
    && p.V && (p.W ==> p.R) && p.reserved == 0
    && (p.PBMT == 0 || (s.svpbmt && p.PBMT != 3)) && (p.rsw60t59b == 0 || s.svrsw)
  }

  predicate PointerWord(s: Scheme, p: Pte) { Sane(s, p) && !p.R && !p.X && !p.U && !p.A && !p.D && !p.N && p.PBMT == 0 }

  predicate LeafWord(s: Scheme, p: Pte, level: nat) { Sane(s, p) && (p.R || p.X) && (p.N ==> level == 0) }

  /** `tables` are the pages of the tables from the root down; the last is at this level. */
  function LevelOf(s: Scheme, tables: seq<nat>): int { Depth(s.format) - |tables| }

  predicate Within(s: Scheme, tables: seq<nat>) { 0 < |tables| <= Depth(s.format) }

  /** Where the last of them has the entry of `addr`. */
  function AddrIn(s: Scheme, tables: seq<nat>, addr: nat): nat
    requires Within(s, tables)
  {
    tables[|tables| - 1] * PAGE_SIZE + IndexOf(s.format, s.second, LevelOf(s, tables), addr) * EntryBytes(s.format)
  }

  function WordIn(s: Scheme, m: Store, tables: seq<nat>, addr: nat): Pte
    requires Within(s, tables)
  {
    Fetch(m, Slot(AddrIn(s, tables, addr), EntryBytes(s.format)))
  }

  /** What the load of that entry meets. The second stage compares its table with the physical width, the first
      stage the entry. */
  function LoadIn(s: Scheme, m: Store, tables: seq<nat>, addr: nat): Status
    requires Within(s, tables)
  {
    var a := AddrIn(s, tables, addr);
    if (if s.second then tables[|tables| - 1] * PAGE_SIZE else a) >= Pow2(s.pas) || a in m.loadViolations then AccessFault
    else if a in m.poisoned then DataCorruption
    else Okay
  }

  /** The walk for `addr` goes from the root through pointers to the last of the tables. */
  predicate Leads(s: Scheme, m: Store, tables: seq<nat>, addr: nat) {
    Within(s, tables) &&
    if |tables| == 1 then tables[0] == s.root
    else
      var above := tables[..|tables| - 1];
      && Leads(s, m, above, addr) && LoadIn(s, m, above, addr).Okay?
      && PointerWord(s, WordIn(s, m, above, addr)) && WordIn(s, m, above, addr).PPN == tables[|tables| - 1]
  }

  predicate LeafIn(s: Scheme, m: Store, tables: seq<nat>, addr: nat, p: Pte) {
    Leads(s, m, tables, addr) && LoadIn(s, m, tables, addr).Okay? && WordIn(s, m, tables, addr) == p && LeafWord(s, p, LevelOf(s, tables))
  }

  lemma LeafMeans(s: Scheme, m: Store, tables: seq<nat>, addr: nat, p: Pte)
    requires LeafIn(s, m, tables, addr, p)
    ensures Leads(s, m, tables, addr) && WordIn(s, m, tables, addr) == p && 0 <= LevelOf(s, tables) < Depth(s.format)
    ensures p.N ==> LevelOf(s, tables) == 0
  {
    hide Fetch, Pow2, Sane;
  }

  /** The walk comes to a word it cannot use. */
  predicate DeadEnd(s: Scheme, m: Store, tables: seq<nat>, addr: nat) {
    && Leads(s, m, tables, addr) && LoadIn(s, m, tables, addr).Okay?
    && !LeafWord(s, WordIn(s, m, tables, addr), LevelOf(s, tables))
    && (LevelOf(s, tables) > 0 ==> !PointerWord(s, WordIn(s, m, tables, addr)))
  }

  /** Every walk comes to a leaf, to a word it cannot use, or to one it cannot load. */
  lemma {:induction false} WalkEnds(s: Scheme, m: Store, tables: seq<nat>, addr: nat) returns (end: seq<nat>)
    requires Leads(s, m, tables, addr)
    ensures Leads(s, m, end, addr)
    ensures !LoadIn(s, m, end, addr).Okay? || DeadEnd(s, m, end, addr) || LeafIn(s, m, end, addr, WordIn(s, m, end, addr))
    decreases Depth(s.format) - |tables|
  {
    hide Fetch, Pow2, Sane;
    end := tables;
    var p := WordIn(s, m, tables, addr);
    if LoadIn(s, m, tables, addr).Okay? && PointerWord(s, p) && LevelOf(s, tables) > 0 {
      var next := tables + [p.PPN];
      assert next[..|next| - 1] == tables;
      end := WalkEnds(s, m, next, addr);
    }
  }

  /** The tables that a walk through the second stage has come to, from the root, by guest page, and the memory
      before each is read. */
  datatype Trail = Trail(tables: seq<nat>, before: seq<Store>) {
    function Above(): Trail
      requires |tables| == |before| > 0
    {
      Trail(tables[..|tables| - 1], before[..|tables| - 1])
    }
  }

  // ---------------------------------------------------------------- the second stage walks so

  function SecondScheme(sp: Space): Scheme
    requires sp.gmode.Paged?
  {
    Scheme(sp.gmode.format, true, sp.gppn, sp.pas, sp.svpbmt, sp.svrsw60t59b)
  }

  lemma SecondStep(sp: Space, m: Store, tables: seq<nat>, gpa: nat)
    requires sp.gmode.Paged? && Leads(SecondScheme(sp), m, tables, gpa)
    ensures var (s, f) := (SecondScheme(sp), sp.gmode.format);
            var (vpn, k) := (Indices(f, f.RootWidening(), gpa), LevelOf(s, tables));
            GReachFrom(sp, vpn, k, tables[|tables| - 1] * PAGE_SIZE, m) ==
              match LoadIn(s, m, tables, gpa)
              case AccessFault => GStop(GstAccessFault)
              case DataCorruption => GStop(GstDataCorruption)
              case Okay =>
                var p := WordIn(s, m, tables, gpa);
                if LeafWord(s, p, k) then GLeaf(AddrIn(s, tables, gpa), p, k)
                else if k > 0 && PointerWord(s, p) then GReachFrom(sp, vpn, k - 1, p.PPN * PAGE_SIZE, m)
                else GStop(GstPageFault)
  {
    var s, f := SecondScheme(sp), sp.gmode.format;
    var k := LevelOf(s, tables);
    PageSizes(f, k);
    IndexIs(f, true, k, gpa);
    hide Fetch, Pow2, Vpn, IndexOf, Leads;
  }

  lemma {:induction false} SecondLeads(sp: Space, m: Store, tables: seq<nat>, gpa: nat)
    requires sp.gmode.Paged? && Leads(SecondScheme(sp), m, tables, gpa) && GpaFits(sp, gpa)
    ensures var f := sp.gmode.format;
            GReach(sp, gpa, m) ==
            GReachFrom(sp, Indices(f, f.RootWidening(), gpa), LevelOf(SecondScheme(sp), tables), tables[|tables| - 1] * PAGE_SIZE, m)
    decreases |tables|
  {
    hide Fetch, Pow2, Indices, Sane, GReachFrom;
    PageSizes(sp.gmode.format, 0);
    if |tables| > 1 {
      SecondLeads(sp, m, tables[..|tables| - 1], gpa);
      SecondStep(sp, m, tables[..|tables| - 1], gpa);
    }
  }

  /** The second stage finds the leaf that the tables lead to, and stops with a page fault at a word that is
      neither leaf nor pointer, in just these cases. */
  lemma SecondStageFinds(sp: Space, m: Store, tables: seq<nat>, gpa: nat)
    requires sp.gmode.Paged? && Leads(SecondScheme(sp), m, tables, gpa) && InWidth(sp.gmode.format, sp.sxl, gpa)
    ensures var s := SecondScheme(sp);
            && (LeafIn(s, m, tables, gpa, WordIn(s, m, tables, gpa)) ==>
                  GReach(sp, gpa, m) == GLeaf(AddrIn(s, tables, gpa), WordIn(s, m, tables, gpa), LevelOf(s, tables)))
            && (DeadEnd(s, m, tables, gpa) ==> GReach(sp, gpa, m) == GStop(GstPageFault))
            && (LoadIn(s, m, tables, gpa).AccessFault? ==> GReach(sp, gpa, m) == GStop(GstAccessFault))
            && (LoadIn(s, m, tables, gpa).DataCorruption? ==> GReach(sp, gpa, m) == GStop(GstDataCorruption))
  {
    hide Fetch, Pow2, Indices, Sane, GReachFrom, GReach;
    SecondLeads(sp, m, tables, gpa);
    SecondStep(sp, m, tables, gpa);
  }

  /** And every leaf it finds is so led to. */
  lemma SecondStageLed(sp: Space, m: Store, gpa: nat) returns (tables: seq<nat>)
    requires sp.gmode.Paged? && GReach(sp, gpa, m).GLeaf?
    ensures InWidth(sp.gmode.format, sp.sxl, gpa)
    ensures var (s, r) := (SecondScheme(sp), GReach(sp, gpa, m));
            LeafIn(s, m, tables, gpa, r.pte) && r.addr == AddrIn(s, tables, gpa) && r.level == LevelOf(s, tables)
  {
    hide Fetch, Pow2, Indices, Sane, GReachFrom;
    var s := SecondScheme(sp);
    assert Leads(s, m, [s.root], gpa);
    tables := WalkEnds(s, m, [s.root], gpa);
    SecondStageFinds(sp, m, tables, gpa);
  }

  // ---------------------------------------------------------------- the first stage without a second walks so

  function FirstScheme(sp: Space): Scheme
    requires sp.vmode.Paged?
  {
    Scheme(sp.vmode.format, false, sp.vppn, sp.pas, sp.svpbmt, sp.svrsw60t59b)
  }

  /** Some pointer on the way has its G bit set. */
  predicate GlobalOn(s: Scheme, m: Store, tables: seq<nat>, addr: nat)
    requires Within(s, tables)
  {
    |tables| > 1 && (GlobalOn(s, m, tables[..|tables| - 1], addr) || WordIn(s, m, tables[..|tables| - 1], addr).G)
  }

  lemma TablePage(s: Scheme, m: Store, tables: seq<nat>, addr: nat)
    requires Leads(s, m, tables, addr) && s.root < 0x1000_0000_0000 && !s.second
    ensures tables[|tables| - 1] < 0x1000_0000_0000 && AddrIn(s, tables, addr) < 0x100_0000_0000_0000
  {
    hide Fetch, Pow2, Sane;
  }

  lemma FirstStep(sp: Space, m: Store, tables: seq<nat>, iova: nat, global: bool)
    requires sp.vmode.Paged? && sp.gmode.Bare? && ValidSpace(sp) && Leads(FirstScheme(sp), m, tables, iova)
    ensures var (s, f) := (FirstScheme(sp), sp.vmode.format);
            var (vpn, k, a) := (Indices(f, 0, iova), LevelOf(s, tables), tables[|tables| - 1] * PAGE_SIZE);
            VReachFrom(sp, vpn, k, a, global, m) ==
              match LoadIn(s, m, tables, iova)
              case AccessFault => (VStop(WalkAccessFault), m)
              case DataCorruption => (VStop(WalkCorruption), m)
              case Okay =>
                var p := WordIn(s, m, tables, iova);
                if LeafWord(s, p, k) then (VLeaf(AddrIn(s, tables, iova), p, k, global, true, a), m)
                else if k > 0 && PointerWord(s, p) then VReachFrom(sp, vpn, k - 1, p.PPN * PAGE_SIZE, global || p.G, m)
                else (VStop(PageFault), m)
  {
    var s, f := FirstScheme(sp), sp.vmode.format;
    var k := LevelOf(s, tables);
    PageSizes(f, k);
    IndexIs(f, false, k, iova);
    TablePage(s, m, tables, iova);
    BareWalk(sp, IMPLICIT, AddrIn(s, tables, iova), m);
    assert GWalk(sp, IMPLICIT, AddrIn(s, tables, iova), m).0.pte.W by { hide Splice; }
    hide Fetch, Pow2, Vpn, IndexOf, Leads, GWalk;
  }

  lemma {:induction false} FirstLeads(sp: Space, m: Store, tables: seq<nat>, iova: nat)
    requires sp.vmode.Paged? && sp.gmode.Bare? && ValidSpace(sp)
    requires Leads(FirstScheme(sp), m, tables, iova) && Canonical(sp.vmode.format, iova)
    ensures var (s, f) := (FirstScheme(sp), sp.vmode.format);
            VReach(sp, iova, m) == VReachFrom(sp, Indices(f, 0, iova), LevelOf(s, tables), tables[|tables| - 1] * PAGE_SIZE,
                                              GlobalOn(s, m, tables, iova), m)
    decreases |tables|
  {
    hide Fetch, Pow2, Indices, Sane, VReachFrom, ValidSpace, Canonical;
    PageSizes(sp.vmode.format, 0);
    if |tables| > 1 {
      var above := tables[..|tables| - 1];
      FirstLeads(sp, m, above, iova);
      FirstStep(sp, m, above, iova, GlobalOn(FirstScheme(sp), m, above, iova));
    }
  }

  /** The first stage finds the leaf that the tables lead to, and stops at other words, in just these cases. */
  lemma FirstStageFinds(sp: Space, m: Store, tables: seq<nat>, iova: U64)
    requires sp.vmode.Paged? && sp.gmode.Bare? && ValidSpace(sp) && Leads(FirstScheme(sp), m, tables, iova)
    requires SignExtended(sp.vmode.format, iova)
    ensures var s := FirstScheme(sp);
            var p := WordIn(s, m, tables, iova);
            && (LeafIn(s, m, tables, iova, p) ==>
                  VReach(sp, iova, m) == (VLeaf(AddrIn(s, tables, iova), p, LevelOf(s, tables), GlobalOn(s, m, tables, iova), true,
                                                tables[|tables| - 1] * PAGE_SIZE), m))
            && (DeadEnd(s, m, tables, iova) ==> VReach(sp, iova, m) == (VStop(PageFault), m))
            && (LoadIn(s, m, tables, iova).AccessFault? ==> VReach(sp, iova, m) == (VStop(WalkAccessFault), m))
            && (LoadIn(s, m, tables, iova).DataCorruption? ==> VReach(sp, iova, m) == (VStop(WalkCorruption), m))
  {
    hide Fetch, Pow2, Indices, Sane, VReachFrom, VReach, ValidSpace, GlobalOn;
    FirstLeads(sp, m, tables, iova);
    FirstStep(sp, m, tables, iova, GlobalOn(FirstScheme(sp), m, tables, iova));
  }

  lemma FirstStageLed(sp: Space, m: Store, iova: U64) returns (tables: seq<nat>)
    requires sp.vmode.Paged? && sp.gmode.Bare? && ValidSpace(sp) && VReach(sp, iova, m).0.VLeaf?
    ensures SignExtended(sp.vmode.format, iova)
    ensures var (s, r) := (FirstScheme(sp), VReach(sp, iova, m).0);
            LeafIn(s, m, tables, iova, r.pte) && r.addr == AddrIn(s, tables, iova) && r.level == LevelOf(s, tables)
  {
    hide Fetch, Pow2, Indices, Sane, VReachFrom, ValidSpace;
    var s := FirstScheme(sp);
    assert Leads(s, m, [s.root], iova);
    tables := WalkEnds(s, m, [s.root], iova);
    FirstStageFinds(sp, m, tables, iova);
  }

  /** An address that is not sign-extended is a page fault at once. */
  lemma NotSignExtended(sp: Space, m: Store, iova: U64)
    requires sp.vmode.Paged? && !SignExtended(sp.vmode.format, iova)
    ensures VReach(sp, iova, m) == (VStop(PageFault), m)
  {
  }

  lemma NotInWidth(sp: Space, m: Store, gpa: nat)
    requires sp.gmode.Paged? && !InWidth(sp.gmode.format, sp.sxl, gpa)
    ensures GReach(sp, gpa, m) == GStop(GstPageFault)
  {
  }

  // ---------------------------------------------------------------- what a leaf grants

  /** The rights the access asks for, unless it asks for none to be tested. */
  predicate Holds(p: Pte, check: bool, read: bool, write: bool, exec: bool) {
    check ==> (exec ==> p.X) && (read ==> p.R) && (write ==> p.W)
  }

  /** A user page for users; for supervisors any page, but user pages only with SUM set and never to execute. */
  predicate Privileged(req: Request, p: Pte) { if req.supervisor then p.U ==> req.sum && !req.exec else p.U }

  /** The leaf maps an aligned page, and a NAPOT leaf one of 64 KiB. */
  predicate MapsAligned(f: Format, k: nat, p: Pte) { p.PPN * PAGE_SIZE % PageBytes(f, k) == 0 && (k == 0 && p.N ==> p.PPN % 16 == 8) }

  /** Where the leaf at level `k` takes the address. */
  function MapsTo(f: Format, k: nat, p: Pte, addr: nat): int {
    if p.N then (p.PPN - 8) * PAGE_SIZE + addr % 0x1_0000 else p.PPN * PAGE_SIZE + addr % PageBytes(f, k)
  }

  lemma AlignedIs(f: Format, k: nat, p: Pte)
    requires k < Depth(f)
    ensures WellAligned(f, k, p) <==> MapsAligned(f, k, p)
  {
    PageSizes(f, k);
    var j := f.Shift(k) - PAGE_SHIFT;
    SmallPowers();
    hide Low, Shr, Pow2;
    LowIsRemainder(p.PPN * PAGE_SIZE, f.Shift(k));
    ShrOfMultiple(p.PPN, 12, 0);
    LowSplit(p.PPN * PAGE_SIZE, 12, j);
  }

  lemma MapsIs(f: Format, k: nat, p: Pte, addr: nat)
    requires k < Depth(f) && MapsAligned(f, k, p) && (p.N ==> k == 0)
    ensures Splice(NapotPpn(p, addr) * PAGE_SIZE, addr, f.Shift(k)) == MapsTo(f, k, p, addr)
  {
    PageSizes(f, k);
    hide Low, Shr, Pow2, Splice, PageBytes;
    if p.N {
      PageAtZero(f);
      NapotMaps(p.PPN, addr);
    } else {
      SpliceSums(p.PPN * PAGE_SIZE, addr, f.Shift(k));
    }
  }

  lemma NapotMaps(ppn: nat, addr: nat)
    requires ppn % 16 == 8
    ensures Splice((ppn - ppn % 16 + addr / PAGE_SIZE % 16) * PAGE_SIZE, addr, 12) == (ppn - 8) * PAGE_SIZE + addr % 0x1_0000
  {
    SmallPowers();
    hide Pow2, Splice;
    SpliceSums((ppn - ppn % 16 + addr / PAGE_SIZE % 16) * PAGE_SIZE, addr, 12);
    NapotOffset(ppn, addr);
  }

  lemma SpliceSums(hi: nat, lo: nat, k: nat)
    ensures Splice(hi, lo, k) == hi - hi % Pow2(k) + lo % Pow2(k)
  {
    hide Low, Shr, Pow2, Splice;
    SpliceParts(hi, lo, k);
    LowIsRemainder(hi, k);
    LowIsRemainder(lo, k);
  }

  lemma PageAtZero(f: Format)
    ensures PageBytes(f, 0) == PAGE_SIZE
  {
  }

  lemma NapotOffset(ppn: nat, addr: nat)
    requires ppn % 16 == 8
    ensures (ppn - ppn % 16 + addr / PAGE_SIZE % 16) * PAGE_SIZE + addr % PAGE_SIZE == (ppn - 8) * PAGE_SIZE + addr % 0x1_0000
  {
  }

  /** The leaf with its accessed bit set, and its dirty bit if `dirty`. */
  function WithBits(p: Pte, dirty: bool): Pte { p.(A := true, D := p.D || dirty) }

  /** What the second stage does at a leaf. It grants the access exactly if the page is a user page that holds the
      rights asked for, if any are, is aligned, and either has its A bit, and its D bit if it is writable and the
      access needs it, or may be and is given them; no other word changes. */
  lemma SecondStageGrants(sp: Space, acc: Access, gpa: nat, m: Store, addr: nat, p: Pte, k: nat)
    requires sp.gmode.Paged? && GReach(sp, gpa, m) == GLeaf(addr, p, k)
    ensures k < Depth(sp.gmode.format)
    ensures var (f, (g, n)) := (sp.gmode.format, GWalk(sp, acc, gpa, m));
            var usable := p.U && Holds(p, acc.check, acc.read, acc.write, acc.exec) && MapsAligned(f, k, p);
            var clean := p.A && (p.W && (acc.write || (acc.implicit && sp.sade)) ==> p.D);
            var stored := addr !in m.storeViolations && addr !in m.poisoned;
            && (g.GOk? <==> usable && (clean || (sp.gade && stored)))
            && (g.GOk? ==> g.pa == MapsTo(f, k, p, gpa) && Pow2(g.lg) == PageBytes(f, k) && g.pte == p.(PPN := g.pte.PPN))
            && n == (if g.GOk? && !clean
                     then m.(words := m.words[Slot(addr, EntryBytes(f)) := WithBits(p, p.W && (acc.write || acc.implicit))])
                     else m)
            && (g.GErr? ==> g.fault == if !usable || !sp.gade then GstPageFault
                                       else if addr in m.storeViolations then GstAccessFault else GstDataCorruption)
  {
    hide GReach, Splice, WellAligned, MapsTo, Fetch;
    GLevelBound(sp, gpa, m);
    var f := sp.gmode.format;
    PageSizes(f, 0);
    PageSizes(f, k);
    AlignedIs(f, k, p);
    NapotAtZero(sp, gpa, m);
    if MapsAligned(f, k, p) { MapsIs(f, k, p, gpa); }
    SecondBits(sp, acc, p);
    hide MapsAligned, Pow2, PageBytes, GPermits, GSettled, SetAd, WithBits, Holds;
  }

  lemma SecondBits(sp: Space, acc: Access, p: Pte)
    ensures GPermits(acc, p) <==> p.U && Holds(p, acc.check, acc.read, acc.write, acc.exec)
    ensures GSettled(sp, acc, p) <==> p.A && (p.W && (acc.write || (acc.implicit && sp.sade)) ==> p.D)
    ensures SetAd(p, (acc.write || acc.implicit) && p.W) == WithBits(p, p.W && (acc.write || acc.implicit))
  {
  }

  lemma FirstResult(sp: Space, req: Request, r: VReached)
    requires sp.vmode.Paged? && r.VLeaf?
    ensures var v := VTranslated(sp, req.iova, r);
            && v.gpa == Splice(NapotPpn(r.pte, req.iova) * PAGE_SIZE, req.iova, sp.vmode.format.Shift(r.level))
            && v.lg == sp.vmode.format.Shift(r.level) && v.pte == r.pte.(PPN := v.pte.PPN, G := r.pte.G || r.nonLeafGlobal)
  {
    hide Splice;
  }

  lemma FirstBits(req: Request, p: Pte)
    ensures VPermits(req, p) <==>
              Holds(p, req.check, req.read, req.write, req.exec) && Privileged(req, p)
    ensures VSettled(req, p) <==> p.A && (p.W && req.write ==> p.D)
    ensures SetAd(p, req.write && p.W) == WithBits(p, p.W && req.write)
  {
  }

  lemma NapotAtZero(sp: Space, gpa: nat, m: Store)
    ensures var r := GReach(sp, gpa, m); sp.gmode.Paged? && r.GLeaf? && r.pte.N ==> r.level == 0
  {
    if sp.gmode.Paged? && GpaFits(sp, gpa) {
      var f := sp.gmode.format;
      GNapotLevel(sp, Indices(f, f.RootWidening(), gpa), f.Levels() - 1, sp.gppn * PAGE_SIZE, m);
    }
  }

  /** What the first stage does at a leaf, which `writable` tells whether the second stage lets be written. It
      grants the access exactly if the page holds the rights asked for, if any are, is one for the privilege of
      the request, is aligned, and has its A bit, and its D bit for a write, or may be and is given them. */
  lemma FirstStageGrants(sp: Space, req: Request, m: Store, r: VReached)
    requires sp.vmode.Paged? && r.VLeaf? && r.level < Depth(sp.vmode.format) && (r.pte.N ==> r.level == 0)
    ensures var (f, k, p, (v, n)) := (sp.vmode.format, r.level, r.pte, VFinish(sp, req, r, m));
            var usable := Holds(p, req.check, req.read, req.write, req.exec) && Privileged(req, p) && MapsAligned(f, k, p);
            var clean := p.A && (p.W && req.write ==> p.D);
            var stored := r.addr !in m.storeViolations && r.addr !in m.poisoned;
            && (v.VOk? <==> usable && (clean || (sp.sade && r.writable && stored)))
            && (v.VOk? ==> v.gpa == MapsTo(f, k, p, req.iova) && Pow2(v.lg) == PageBytes(f, k))
            && (v.VOk? ==> v.pte == p.(PPN := v.pte.PPN, G := p.G || r.nonLeafGlobal))
            && n == (if v.VOk? && !clean then m.(words := m.words[Slot(r.addr, EntryBytes(f)) := WithBits(p, p.W && req.write)]) else m)
            && (v.VErr? ==> v.fault == if !usable || !sp.sade then PageFault
                                       else if !r.writable then GuestPageFault(r.table + 3)
                                       else if r.addr in m.storeViolations then WalkAccessFault else WalkCorruption)
  {
    hide Splice, WellAligned, MapsTo, Fetch;
    var f, k, p := sp.vmode.format, r.level, r.pte;
    PageSizes(f, 0);
    PageSizes(f, k);
    AlignedIs(f, k, p);
    if MapsAligned(f, k, p) { MapsIs(f, k, p, req.iova); }
    FirstBits(req, p);
    FirstResult(sp, req, r);
    hide MapsAligned, Pow2, PageBytes, VPermits, VSettled, SetAd, WithBits, Holds, VTranslated;
  }

  // ---------------------------------------------------------------- one stage from the root to the grant

  /** The whole first stage without a second, for the leaf that the tables lead to. */
  lemma FirstStageWalks(sp: Space, req: Request, m: Store, tables: seq<nat>, p: Pte)
    requires sp.vmode.Paged? && sp.gmode.Bare? && ValidSpace(sp) && SignExtended(sp.vmode.format, req.iova)
    requires LeafIn(FirstScheme(sp), m, tables, req.iova, p)
    ensures var (f, k, addr) := (sp.vmode.format, LevelOf(FirstScheme(sp), tables), AddrIn(FirstScheme(sp), tables, req.iova));
            var (v, n) := VWalk(sp, req, m);
            var usable := Holds(p, req.check, req.read, req.write, req.exec) && Privileged(req, p) && MapsAligned(f, k, p);
            var clean := p.A && (p.W && req.write ==> p.D);
            && (v.VOk? <==> usable && (clean || (sp.sade && addr !in m.storeViolations && addr !in m.poisoned)))
            && (v.VOk? ==> v.gpa == MapsTo(f, k, p, req.iova) && Pow2(v.lg) == PageBytes(f, k) &&
                           v.pte == p.(PPN := v.pte.PPN, G := v.pte.G))
            && n == (if v.VOk? && !clean then m.(words := m.words[Slot(addr, EntryBytes(f)) := WithBits(p, p.W && req.write)]) else m)
            && (v.VErr? ==> v.fault == if !usable || !sp.sade then PageFault
                                       else if addr in m.storeViolations then WalkAccessFault else WalkCorruption)
  {
    hide VFinish, ValidSpace, MapsTo, MapsAligned, WithBits, LeafIn, AddrIn, Holds, VReach, SignExtended, Pow2, PageBytes;
    LeafMeans(FirstScheme(sp), m, tables, req.iova, p);
    FirstStageFinds(sp, m, tables, req.iova);
    FirstStageGrants(sp, req, m, VReach(sp, req.iova, m).0);
  }

  /** The whole second stage, for the leaf that the tables lead to. */
  lemma SecondStageWalks(sp: Space, acc: Access, m: Store, gpa: nat, tables: seq<nat>, p: Pte)
    requires sp.gmode.Paged? && InWidth(sp.gmode.format, sp.sxl, gpa) && LeafIn(SecondScheme(sp), m, tables, gpa, p)
    ensures var (f, k, addr) := (sp.gmode.format, LevelOf(SecondScheme(sp), tables), AddrIn(SecondScheme(sp), tables, gpa));
            var (g, n) := GWalk(sp, acc, gpa, m);
            var usable := p.U && Holds(p, acc.check, acc.read, acc.write, acc.exec) && MapsAligned(f, k, p);
            var clean := p.A && (p.W && (acc.write || (acc.implicit && sp.sade)) ==> p.D);
            && (g.GOk? <==> usable && (clean || (sp.gade && addr !in m.storeViolations && addr !in m.poisoned)))
            && (g.GOk? ==> g.pa == MapsTo(f, k, p, gpa) && Pow2(g.lg) == PageBytes(f, k) && g.pte == p.(PPN := g.pte.PPN))
            && n == (if g.GOk? && !clean
                     then m.(words := m.words[Slot(addr, EntryBytes(f)) := WithBits(p, p.W && (acc.write || acc.implicit))])
                     else m)
            && (g.GErr? ==> g.fault == if !usable || !sp.gade then GstPageFault
                                       else if addr in m.storeViolations then GstAccessFault else GstDataCorruption)
  {
    hide GWalk, MapsTo, MapsAligned, WithBits, LeafIn, AddrIn, Holds, GReach, InWidth, Pow2, PageBytes;
    LeafMeans(SecondScheme(sp), m, tables, gpa, p);
    SecondStageFinds(sp, m, tables, gpa);
    SecondStageGrants(sp, acc, gpa, m, AddrIn(SecondScheme(sp), tables, gpa), p, LevelOf(SecondScheme(sp), tables));
  }
}
