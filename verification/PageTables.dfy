/** Page-table entries, the memory that holds them, and the translation
    context (an accepted device/process context) that a walk is given. */
module PageTables {
  import opened Bits
  import opened Common

  // ---------------------------------------------------------------- entries

  type Ppn = x: nat | x < 0x1000_0000_0000

  /** The bit-fields of `pte_t` and `gpte_t`. */
  datatype Pte = Pte(V: bool, R: bool, W: bool, X: bool, U: bool, G: bool, A: bool, D: bool,
                     RSW: nat, PPN: Ppn, reserved: nat, rsw60t59b: nat, PBMT: nat, N: bool)

  const ZERO_PTE := Pte(false, false, false, false, false, false, false, false, 0, 0, 0, 0, 0, false)

  /** What a 4-byte load of an entry leaves in the 8-byte union. */
  function Narrow(p: Pte, size: nat): Pte {
    if size == 4 then p.(PPN := p.PPN % 0x40_0000, reserved := 0, rsw60t59b := 0, PBMT := 0, N := false) else p
  }

  predicate IsLeaf(p: Pte) { p.R || p.X }

  function SetAd(p: Pte, dirty: bool): Pte {
    p.(A := true, D := p.D || dirty)
  }

  /** `q` is `p` but perhaps for the accessed and dirty bits. */
  predicate SameButAd(p: Pte, q: Pte) {
    q == p.(A := q.A, D := q.D)
  }

  // ---------------------------------------------------------------- memory

  /** Memory is typed: a page-table word is named by its address and its width. */
  datatype Slot = Slot(addr: nat, size: nat)

  /** Memory contents with the injected faults of the test platform: addresses whose
      loads (or stores) violate access checks, and addresses holding poisoned data. */
  datatype Store = Store(words: map<Slot, Pte>, loadViolations: set<nat>, storeViolations: set<nat>, poisoned: set<nat>)

  function LoadStatus(m: Store, addr: nat): Status {
    if addr in m.loadViolations then AccessFault
    else if addr in m.poisoned then DataCorruption
    else Okay
  }

  function StoreStatus(m: Store, addr: nat): Status {
    if addr in m.storeViolations then AccessFault
    else if addr in m.poisoned then DataCorruption
    else Okay
  }

  function Fetch(m: Store, s: Slot): Pte {
    if s in m.words then Narrow(m.words[s], s.size) else ZERO_PTE
  }

  function Put(m: Store, s: Slot, p: Pte): Store {
    m.(words := m.words[s := p])
  }

  /** The memory the IO bridge gives the walker access to. */
  class Memory {
    var store: Store

    constructor (s: Store)
      ensures store == s
    {
      store := s;
    }

    method ReadMemory(addr: nat, size: nat) returns (status: Status, data: Pte)
      ensures status == LoadStatus(store, addr)
      ensures data == if status.Okay? then Fetch(store, Slot(addr, size)) else ZERO_PTE
    {
      data := ZERO_PTE;
      if addr in store.loadViolations { return AccessFault, data; }
      if addr in store.poisoned { return DataCorruption, data; }
      status := Okay;
      if Slot(addr, size) in store.words {
        data := Narrow(store.words[Slot(addr, size)], size);
      }
    }

    method WriteMemory(addr: nat, size: nat, data: Pte) returns (status: Status)
      modifies this
      ensures status == StoreStatus(old(store), addr)
      ensures store == if status.Okay? then Put(old(store), Slot(addr, size), data) else old(store)
    {
      if addr in store.storeViolations { return AccessFault; }
      if addr in store.poisoned { return DataCorruption; }
      status := Okay;
      store := store.(words := store.words[Slot(addr, size) := data]);
    }
  }

  // ---------------------------------------------------------------- free memory

  predicate InPage(addr: nat, page: nat) { page * PAGE_SIZE <= addr < (page + 1) * PAGE_SIZE }

  /** Free memory has no injected faults. */
  ghost predicate FreeIsClean(m: Store, next: nat) {
    && (forall addr: nat | addr in m.loadViolations :: addr < next * PAGE_SIZE)
    && (forall addr: nat | addr in m.storeViolations :: addr < next * PAGE_SIZE)
    && (forall addr: nat | addr in m.poisoned :: addr < next * PAGE_SIZE)
  }

  lemma CleanAt(m: Store, next: nat, addr: nat)
    requires FreeIsClean(m, next) && next * PAGE_SIZE <= addr
    ensures LoadStatus(m, addr).Okay? && StoreStatus(m, addr).Okay?
  {
  }

  // ---------------------------------------------------------------- table formats

  datatype Format = Sv32 | Sv39 | Sv48 | Sv57 {
    function Levels(): nat {
      match this case Sv32 => 2 case Sv39 => 3 case Sv48 => 4 case Sv57 => 5
    }

    function PteSize(): nat { if this.Sv32? then 4 else 8 }

    function IndexBits(): nat { if this.Sv32? then 10 else 9 }

    /** The lowest address bit that selects an entry at level `i`: a leaf there maps 2^Shift(i) bytes. */
    function Shift(i: nat): nat { PAGE_SHIFT + IndexBits() * i }

    /** Extra index bits of the widened root of a second-stage table. */
    function RootWidening(): nat { if this.Sv32? then 3 else 2 }
  }

  datatype Mode = Bare | Paged(format: Format)

  /** `vpn[i]`; `widening` is 0 for a first-stage table. */
  function Vpn(f: Format, widening: nat, i: nat, addr: nat): nat {
    GetBits(f.Shift(i) + f.IndexBits() + (if i == f.Levels() - 1 then widening else 0) - 1, f.Shift(i), addr)
  }

  /** The whole `vpn[]` array. */
  function Indices(f: Format, widening: nat, addr: nat): (vpn: seq<nat>)
    ensures |vpn| == f.Levels()
  {
    seq(f.Levels(), i requires 0 <= i => Vpn(f, widening, i, addr))
  }

  /** The indices stay inside their tables: one page each, four pages at a widened root. */
  predicate InTable(f: Format, vpn: seq<nat>, rootSize: nat) {
    && |vpn| == f.Levels()
    && (forall i | 0 <= i < f.Levels() - 1 :: vpn[i] * f.PteSize() < PAGE_SIZE)
    && vpn[f.Levels() - 1] * f.PteSize() < rootSize
  }

  /** The table entry for `vpn[i]` in the table at `a`. */
  function EntrySlot(f: Format, vpn: seq<nat>, i: nat, a: nat): Slot
    requires i < |vpn|
  {
    Slot(a + vpn[i] * f.PteSize(), f.PteSize())
  }

  /** The part of a device context, process context and register file a walk depends on.
      `vBareLg` and `gBareLg` are the logarithms of the sizes reported for a Bare stage. */
  datatype Space = Space(pas: nat, svpbmt: bool, svrsw60t59b: bool,
                         sade: bool, gade: bool, sxl: bool,
                         vmode: Mode, vppn: Ppn, vBareLg: nat,
                         gmode: Mode, gppn: Ppn, gBareLg: nat)

  /** What the configuration checks guarantee of a context (see DeviceContexts). */
  predicate ValidSpace(sp: Space) {
    && sp.pas <= 56
    && 12 <= sp.vBareLg <= 56 && 12 <= sp.gBareLg <= 56
    && (sp.gmode.Paged? ==> sp.gppn % 4 == 0)
    && (sp.gmode.Paged? && sp.gmode.format.Sv32? ==> sp.sxl)
    && (sp.vmode.Paged? ==> (sp.vmode.format.Sv32? <==> sp.sxl))
  }

  /** An entry that is invalid or uses a reserved encoding at any level. */
  predicate Malformed(sp: Space, p: Pte) {
    || !p.V || (!p.R && p.W)
    || (p.PBMT != 0 && !sp.svpbmt) || p.PBMT == 3
    || p.reserved != 0
    || (p.rsw60t59b != 0 && !sp.svrsw60t59b)
  }

  /** A pointer entry must have its leaf-only fields clear. */
  predicate BadPointer(p: Pte) {
    p.PBMT != 0 || p.D || p.A || p.U
  }

  /** A leaf at level `i` maps an aligned page and uses a defined NAPOT encoding. */
  predicate WellAligned(f: Format, i: nat, p: Pte) {
    && Low(p.PPN, f.Shift(i) - PAGE_SHIFT) == 0
    && (i == 0 && p.N ==> p.PPN % 16 == 8)
  }

  /** A NAPOT leaf takes the low four page-number bits from the address. */
  function NapotPpn(p: Pte, addr: nat): (r: nat)
    ensures r < 0x1000_0000_0000
  {
    if p.N then p.PPN - p.PPN % 16 + addr / PAGE_SIZE % 16 else p.PPN
  }

  // ---------------------------------------------------------------- table addresses

  lemma ShiftBound(f: Format, i: nat)
    requires i < f.Levels()
    ensures 12 <= f.Shift(i) <= 48
  {
  }

  lemma SmallPowers()
    ensures Pow2(9) == 512 && Pow2(10) == 1024 && Pow2(11) == 2048 && Pow2(12) == 4096 && Pow2(14) == 0x4000
  {
    Pow2Plus8(0);
    Pow2Plus8(1);
    Pow2Plus8(2);
    Pow2Plus8(3);
    Pow2Plus8(4);
    Pow2Plus8(6);
  }

  lemma FirstStageIndices(f: Format, addr: nat)
    ensures InTable(f, Indices(f, 0, addr), PAGE_SIZE)
  {
    SmallPowers();
    forall i | 0 <= i < f.Levels() ensures Vpn(f, 0, i, addr) * f.PteSize() < PAGE_SIZE {
      FieldBound(f.Shift(i) + f.IndexBits() - 1, f.Shift(i), addr);
    }
  }

  /** The 13-bit index of an Sv32x4 root would leave the 16 KiB root table; the check that the
      address has no bits above 33 keeps it inside. */
  lemma SecondStageIndices(f: Format, addr: nat)
    requires f.Sv32? ==> addr < 0x4_0000_0000
    ensures InTable(f, Indices(f, f.RootWidening(), addr), 4 * PAGE_SIZE)
  {
    SmallPowers();
    var w := f.RootWidening();
    forall i | 0 <= i < f.Levels() - 1 ensures Vpn(f, w, i, addr) * f.PteSize() < PAGE_SIZE {
      FieldBound(f.Shift(i) + f.IndexBits() - 1, f.Shift(i), addr);
    }
    var root := f.Levels() - 1;
    if f.Sv32? {
      Shr22(addr);
    } else {
      FieldBound(f.Shift(root) + f.IndexBits() + 2 - 1, f.Shift(root), addr);
    }
  }

  lemma Shr22(addr: nat)
    requires addr < 0x4_0000_0000
    ensures GetBits(34, 22, addr) < 4096
  {
    SmallPowers();
    Pow2Of64();
    ShrShr(addr, 22, 12);
    assert Pow2(34) == 4 * Pow2(32);
    ShrZero(addr, 34);
    ShrZero(Shr(addr, 22), 12);
  }

  /** `a | off` is `a + off` for an offset inside an aligned table. */
  lemma EntryAddress(ppn: nat, off: nat, root: bool)
    requires off < (if root then 4 else 1) * PAGE_SIZE
    requires root ==> ppn % 4 == 0
    ensures Or(ppn * PAGE_SIZE, off) == ppn * PAGE_SIZE + off
  {
    SmallPowers();
    if root {
      ShrOfMultiple(ppn / 4, 14, 0);
      OrIsPlus(ppn * PAGE_SIZE, off, 14);
    } else {
      ShrOfMultiple(ppn, 12, 0);
      OrIsPlus(ppn * PAGE_SIZE, off, 12);
    }
  }
}
