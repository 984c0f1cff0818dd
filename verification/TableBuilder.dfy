/** Building second-stage tables: on tables that share no entries, adding an entry changes what the
    walk finds for just the addresses of the region it maps. */
module TableBuilder {
  import opened Bits
  import opened Common
  import opened PageTables
  import opened SecondStage
  import opened Superpages

  // ---------------------------------------------------------------- what the builder does

  /** A page is handed out cleared. */
  function ClearPage(m: Store, page: nat): Store {
    m.(words := map s | s in m.words && !InPage(s.addr, page) :: m.words[s])
  }

  /** An invalid entry turned into a pointer to `page`, whose number the field truncates. */
  function Linked(p: Pte, page: nat): Pte { p.(V := true, PPN := page % 0x1000_0000_0000) }

  /** The memory, the next free page and the address of the entry written, if no access failed. */
  datatype Built = Built(store: Store, next: nat, addr: Option<nat>)

  /** The loop of `add_g_stage_pte` from the table at `a`, level `i`. */
  function BuildFrom(f: Format, vpn: seq<nat>, i: nat, level: nat, a: nat, leaf: Pte, m: Store, next: nat): Built
    requires i < |vpn|
    decreases i
  {
    var s := EntrySlot(f, vpn, i, a);
    if i <= level then
      if StoreStatus(m, s.addr).Okay? then Built(Put(m, s, leaf), next, Some(s.addr)) else Built(m, next, None)
    else if !LoadStatus(m, s.addr).Okay? then Built(m, next, None)
    else
      var p := Fetch(m, s);
      if p.V then BuildFrom(f, vpn, i - 1, level, p.PPN * PAGE_SIZE, leaf, m, next)
      else if !StoreStatus(m, s.addr).Okay? then Built(ClearPage(m, next), next + 1, None)
      else
        var q := Linked(p, next);
        BuildFrom(f, vpn, i - 1, level, q.PPN * PAGE_SIZE, leaf, Put(ClearPage(m, next), s, q), next + 1)
  }

  // ---------------------------------------------------------------- tables and where they are

  /** An entry the walk follows to the next level. */
  predicate Pointer(sp: Space, p: Pte) { !Malformed(sp, p) && !p.N && !IsLeaf(p) && !BadPointer(p) }

  predicate ForTable(sp: Space, vpn: seq<nat>) { sp.gmode.Paged? && InTable(sp.gmode.format, vpn, 4 * PAGE_SIZE) }

  /** The table the walk for `vpn` comes to at level `i`. */
  function TableAt(sp: Space, vpn: seq<nat>, i: nat, m: Store): Option<nat>
    requires ForTable(sp, vpn) && i < |vpn|
    decreases |vpn| - i
  {
    if i == |vpn| - 1 then Some(sp.gppn * PAGE_SIZE)
    else match TableAt(sp, vpn, i + 1, m)
      case None => None
      case Some(a) =>
        var s := EntrySlot(sp.gmode.format, vpn, i + 1, a);
        if a < Pow2(sp.pas) && LoadStatus(m, s.addr).Okay? && Pointer(sp, Fetch(m, s)) then Some(Fetch(m, s).PPN * PAGE_SIZE)
        else None
  }

  predicate Comes(sp: Space, vpn: seq<nat>, i: nat, m: Store) { ForTable(sp, vpn) && i < |vpn| && TableAt(sp, vpn, i, m).Some? }

  /** The entry it then reads. */
  function EntryAt(sp: Space, vpn: seq<nat>, i: nat, m: Store): Slot
    requires Comes(sp, vpn, i, m)
  {
    EntrySlot(sp.gmode.format, vpn, i, TableAt(sp, vpn, i, m).value)
  }

  function Walk(sp: Space, vpn: seq<nat>, m: Store): GReached
    requires ForTable(sp, vpn)
  {
    GReachFrom(sp, vpn, |vpn| - 1, sp.gppn * PAGE_SIZE, m)
  }

  lemma {:induction false} WalkComes(sp: Space, vpn: seq<nat>, i: nat, m: Store)
    requires Comes(sp, vpn, i, m)
    ensures Walk(sp, vpn, m) == GReachFrom(sp, vpn, i, TableAt(sp, vpn, i, m).value, m)
    decreases |vpn| - i
  {
    hide Malformed, BadPointer, Fetch, Pow2;
    if i < |vpn| - 1 { WalkComes(sp, vpn, i + 1, m); }
  }

  /** Two walks read one entry only where all their indices so far agree. */
  predicate ReadApart(sp: Space, v: seq<nat>, i: nat, w: seq<nat>, j: nat, m: Store) {
    Comes(sp, v, i, m) && Comes(sp, w, j, m) && EntryAt(sp, v, i, m).addr == EntryAt(sp, w, j, m).addr ==>
      i == j && IndicesAgree(v, w, i)
  }

  /** The tables form a tree. */
  ghost predicate TreeShaped(sp: Space, m: Store) { forall v, i, w, j :: ReadApart(sp, v, i, w, j, m) }

  predicate EntryBelow(sp: Space, v: seq<nat>, i: nat, m: Store, next: nat) {
    Comes(sp, v, i, m) ==> EntryAt(sp, v, i, m).addr < next * PAGE_SIZE
  }

  /** No table lies in a page still free. */
  ghost predicate Allocated(sp: Space, m: Store, next: nat) { forall v, i :: EntryBelow(sp, v, i, m, next) }

  /** `n` more page numbers fit in an entry and in the physical address width. */
  predicate Room(sp: Space, next: nat, n: nat)
    requires sp.gmode.Paged?
  {
    (next + n) * PAGE_SIZE <= Pow2(sp.pas) && next + n <= if sp.gmode.format.Sv32? then 0x40_0000 else 0x1000_0000_0000
  }

  /** The entry at level `j` can be used: accessible and, above the level to build, empty or a pointer. */
  predicate Usable(sp: Space, v: seq<nat>, j: nat, level: nat, m: Store) {
    Comes(sp, v, j, m) ==>
      var s := EntryAt(sp, v, j, m);
      && TableAt(sp, v, j, m).value < Pow2(sp.pas) && LoadStatus(m, s.addr).Okay? && StoreStatus(m, s.addr).Okay?
      && (j > level ==> Fetch(m, s) == ZERO_PTE || Pointer(sp, Fetch(m, s)))
  }

  predicate Buildable(sp: Space, v: seq<nat>, level: nat, m: Store)
    requires ForTable(sp, v)
  {
    forall j | level <= j < |v| :: Usable(sp, v, j, level, m)
  }

  // ---------------------------------------------------------------- editing one entry

  /** `n` differs from `m` only in the entry that `v` reads at level `i` and in free pages. */
  ghost predicate Edited(sp: Space, v: seq<nat>, i: nat, m: Store, n: Store, next: nat)
    requires Comes(sp, v, i, m)
  {
    && n.loadViolations == m.loadViolations && n.storeViolations == m.storeViolations && n.poisoned == m.poisoned
    && forall s: Slot | s.addr < next * PAGE_SIZE && s.addr != EntryAt(sp, v, i, m).addr :: Fetch(n, s) == Fetch(m, s)
  }

  /** Tables not below the edited entry are where they were. */
  lemma {:induction false} TableElsewhere(sp: Space, v: seq<nat>, i: nat, w: seq<nat>, j: nat, m: Store, n: Store, next: nat)
    requires Comes(sp, v, i, m) && ForTable(sp, w) && j < |w| && TreeShaped(sp, m) && Allocated(sp, m, next)
    requires Edited(sp, v, i, m, n, next) && (j >= i || !IndicesAgree(v, w, i))
    ensures TableAt(sp, w, j, n) == TableAt(sp, w, j, m)
    decreases |w| - j
  {
    hide Pointer, Fetch, Pow2, IndicesAgree, InTable;
    if j < |w| - 1 {
      TableElsewhere(sp, v, i, w, j + 1, m, n, next);
      assert ReadApart(sp, v, i, w, j + 1, m);
      assert EntryBelow(sp, w, j + 1, m, next);
    }
  }

  /** Walks that do not agree with `v` down to the edited entry find what they found. */
  lemma {:induction false} WalkElsewhere(sp: Space, v: seq<nat>, i: nat, w: seq<nat>, j: nat, m: Store, n: Store, next: nat)
    requires Comes(sp, v, i, m) && Comes(sp, w, j, m) && TreeShaped(sp, m) && Allocated(sp, m, next)
    requires Edited(sp, v, i, m, n, next) && !IndicesAgree(v, w, i)
    ensures var a := TableAt(sp, w, j, m).value; GReachFrom(sp, w, j, a, n) == GReachFrom(sp, w, j, a, m)
    decreases j
  {
    hide Malformed, BadPointer, Fetch, Pow2, IndicesAgree, InTable;
    var a := TableAt(sp, w, j, m).value;
    assert ReadApart(sp, v, i, w, j, m);
    assert EntryBelow(sp, w, j, m, next);
    var s := EntryAt(sp, w, j, m);
    assert Fetch(n, s) == Fetch(m, s);
    if j > 0 && a < Pow2(sp.pas) && LoadStatus(m, s.addr).Okay? && Pointer(sp, Fetch(m, s)) {
      WalkElsewhere(sp, v, i, w, j - 1, m, n, next);
    }
  }

  /** The table at a level depends on the indices above it. */
  lemma {:induction false} SameTable(sp: Space, v: seq<nat>, w: seq<nat>, i: nat, m: Store)
    requires ForTable(sp, v) && ForTable(sp, w) && i < |v| && IndicesAgree(v, w, i)
    ensures TableAt(sp, w, i, m) == TableAt(sp, v, i, m)
    decreases |v| - i
  {
    hide Pointer, Fetch, Pow2;
    if i < |v| - 1 { SameTable(sp, v, w, i + 1, m); }
  }

  /** There is no table below an entry that is not a pointer. */
  lemma {:induction false} NoTableBelow(sp: Space, w: seq<nat>, i: nat, j: nat, m: Store)
    requires ForTable(sp, w) && j < i < |w|
    requires Comes(sp, w, i, m) ==> !Pointer(sp, Fetch(m, EntryAt(sp, w, i, m)))
    ensures TableAt(sp, w, j, m).None?
    decreases i - j
  {
    hide Pointer, Fetch, Pow2;
    if j + 1 < i { NoTableBelow(sp, w, i, j + 1, m); }
  }

  // ---------------------------------------------------------------- linking a free page

  /** Memory after the empty entry that `v` reads at level `i` is pointed to the free page `next`. */
  function LinkedStore(sp: Space, v: seq<nat>, i: nat, m: Store, next: nat): Store
    requires Comes(sp, v, i, m)
  {
    Put(ClearPage(m, next), EntryAt(sp, v, i, m), Linked(ZERO_PTE, next))
  }

  /** The builder may link `next` below the entry that `v` reads at level `i`. */
  ghost predicate MayLink(sp: Space, v: seq<nat>, i: nat, level: nat, m: Store, next: nat) {
    && Comes(sp, v, i, m) && level < i && ValidSpace(sp) && TreeShaped(sp, m) && Allocated(sp, m, next) && FreeIsClean(m, next)
    && Buildable(sp, v, level, m) && Fetch(m, EntryAt(sp, v, i, m)) == ZERO_PTE && Room(sp, next, 1)
  }

  lemma LinkEdits(sp: Space, v: seq<nat>, i: nat, level: nat, m: Store, next: nat)
    requires MayLink(sp, v, i, level, m, next)
    ensures var n := LinkedStore(sp, v, i, m, next);
            && Edited(sp, v, i, m, n, next) && Fetch(n, EntryAt(sp, v, i, m)) == Linked(ZERO_PTE, next)
            && Pointer(sp, Linked(ZERO_PTE, next)) && Linked(ZERO_PTE, next).PPN == next
            && forall s: Slot | InPage(s.addr, next) :: Fetch(n, s) == ZERO_PTE
  {
    assert EntryBelow(sp, v, i, m, next);
    assert Usable(sp, v, i, level, m);
    hide Pow2, TreeShaped, Allocated, FreeIsClean, TableAt, InTable;
  }

  /** The entries of a table in the free page lie in that page. */
  lemma EntryInPage(sp: Space, w: seq<nat>, j: nat, next: nat)
    requires ForTable(sp, w) && j < |w| - 1
    ensures InPage(EntrySlot(sp.gmode.format, w, j, next * PAGE_SIZE).addr, next)
  {
  }

  /** After the link, walks agreeing with `v` down to level `i` come to the new page at level `i - 1`
      and no further; all others come where they came. */
  lemma LinkTables(sp: Space, v: seq<nat>, i: nat, level: nat, w: seq<nat>, j: nat, m: Store, next: nat)
    requires MayLink(sp, v, i, level, m, next) && ForTable(sp, w) && j < |w|
    ensures var n := LinkedStore(sp, v, i, m, next);
            TableAt(sp, w, j, n) ==
              if j >= i || !IndicesAgree(v, w, i) then TableAt(sp, w, j, m)
              else if j == i - 1 then Some(next * PAGE_SIZE) else None
  {
    var n := LinkedStore(sp, v, i, m, next);
    LinkEdits(sp, v, i, level, m, next);
    hide LinkedStore, Fetch, Pow2, Pointer, TreeShaped, Allocated, FreeIsClean, Linked, IndicesAgree, Edited;
    if j >= i || !IndicesAgree(v, w, i) {
      TableElsewhere(sp, v, i, w, j, m, n, next);
    } else {
      LinkReaches(sp, v, i, level, w, m, next);
      if j < i - 1 { LinkStops(sp, w, i, j, n, next); }
    }
  }

  lemma LinkReaches(sp: Space, v: seq<nat>, i: nat, level: nat, w: seq<nat>, m: Store, next: nat)
    requires MayLink(sp, v, i, level, m, next) && ForTable(sp, w) && IndicesAgree(v, w, i)
    ensures var n := LinkedStore(sp, v, i, m, next);
            TableAt(sp, w, i, n) == TableAt(sp, v, i, m) && TableAt(sp, w, i - 1, n) == Some(next * PAGE_SIZE)
  {
    var n := LinkedStore(sp, v, i, m, next);
    LinkEdits(sp, v, i, level, m, next);
    TableElsewhere(sp, v, i, w, i, m, n, next);
    SameTable(sp, v, w, i, m);
    assert Usable(sp, v, i, level, m);
    assert EntrySlot(sp.gmode.format, w, i, TableAt(sp, v, i, m).value) == EntryAt(sp, v, i, m);
    hide LinkedStore, Fetch, Pow2, Pointer, TreeShaped, Allocated, FreeIsClean, Linked, IndicesAgree, InTable;
  }

  lemma LinkStops(sp: Space, w: seq<nat>, i: nat, j: nat, n: Store, next: nat)
    requires ForTable(sp, w) && j < i - 1 < |w| - 1 && TableAt(sp, w, i - 1, n) == Some(next * PAGE_SIZE)
    requires forall s: Slot | InPage(s.addr, next) :: Fetch(n, s) == ZERO_PTE
    ensures TableAt(sp, w, j, n).None?
  {
    EntryInPage(sp, w, i - 1, next);
    NoTableBelow(sp, w, i - 1, j, n);
  }

  /** Linking an empty page changes no walk: what faulted for want of a valid entry still does. */
  lemma LinkKeepsWalks(sp: Space, v: seq<nat>, i: nat, level: nat, w: seq<nat>, m: Store, next: nat)
    requires MayLink(sp, v, i, level, m, next) && ForTable(sp, w)
    ensures Walk(sp, w, LinkedStore(sp, v, i, m, next)) == Walk(sp, w, m)
  {
    var n := LinkedStore(sp, v, i, m, next);
    LinkEdits(sp, v, i, level, m, next);
    if IndicesAgree(v, w, i) {
      LinkReaches(sp, v, i, level, w, m, next);
      SameTable(sp, v, w, i, m);
      WalkComes(sp, w, i, m);
      WalkComes(sp, w, i - 1, n);
      EntryInPage(sp, w, i - 1, next);
      FindsNothing(sp, v, i, level, w, m, next);
    } else {
      WalkElsewhere(sp, v, i, w, |w| - 1, m, n, next);
    }
  }

  lemma FindsNothing(sp: Space, v: seq<nat>, i: nat, level: nat, w: seq<nat>, m: Store, next: nat)
    requires MayLink(sp, v, i, level, m, next) && ForTable(sp, w) && IndicesAgree(v, w, i)
    ensures GReachFrom(sp, w, i, TableAt(sp, v, i, m).value, m) == GStop(GstPageFault)
    ensures GReachFrom(sp, w, i - 1, next * PAGE_SIZE, LinkedStore(sp, v, i, m, next)) == GStop(GstPageFault)
  {
    var n := LinkedStore(sp, v, i, m, next);
    LinkEdits(sp, v, i, level, m, next);
    assert Usable(sp, v, i, level, m);
    assert EntrySlot(sp.gmode.format, w, i, TableAt(sp, v, i, m).value) == EntryAt(sp, v, i, m);
    EntryInPage(sp, w, i - 1, next);
    var s := EntrySlot(sp.gmode.format, w, i - 1, next * PAGE_SIZE);
    CleanAt(m, next, s.addr);
    assert Fetch(n, s) == ZERO_PTE;
    hide LinkedStore, Fetch, Pow2, TreeShaped, Allocated, IndicesAgree, InTable, TableAt;
  }

  lemma SameAddress(f: Format, v: seq<nat>, w: seq<nat>, i: nat, a: nat)
    requires i < |v| == |w| && EntrySlot(f, v, i, a).addr == EntrySlot(f, w, i, a).addr
    ensures v[i] == w[i]
  {
  }

  /** A table entry in the new page, or one from before. */
  predicate NewEntry(v: seq<nat>, i: nat, w: seq<nat>, j: nat) { j + 1 == i && IndicesAgree(v, w, i) }

  lemma LinkedEntry(sp: Space, v: seq<nat>, i: nat, level: nat, w: seq<nat>, j: nat, m: Store, next: nat)
    requires MayLink(sp, v, i, level, m, next) && Comes(sp, w, j, LinkedStore(sp, v, i, m, next))
    ensures var s := EntryAt(sp, w, j, LinkedStore(sp, v, i, m, next));
            if NewEntry(v, i, w, j) then InPage(s.addr, next) && s == EntrySlot(sp.gmode.format, w, j, next * PAGE_SIZE)
            else Comes(sp, w, j, m) && s == EntryAt(sp, w, j, m) && s.addr < next * PAGE_SIZE
  {
    LinkTables(sp, v, i, level, w, j, m, next);
    assert EntryBelow(sp, w, j, m, next);
    if NewEntry(v, i, w, j) { EntryInPage(sp, w, j, next); }
    hide LinkedStore, Fetch, Pow2, TreeShaped, Allocated, FreeIsClean, InTable, TableAt, IndicesAgree, Room;
  }

  lemma LinkReadsApart(sp: Space, v: seq<nat>, i: nat, level: nat, w: seq<nat>, j: nat, x: seq<nat>, k: nat, m: Store, next: nat)
    requires MayLink(sp, v, i, level, m, next)
    ensures ReadApart(sp, w, j, x, k, LinkedStore(sp, v, i, m, next))
  {
    var n := LinkedStore(sp, v, i, m, next);
    hide LinkedStore, MayLink, Fetch, Pow2, InTable, TableAt;
    if Comes(sp, w, j, n) && Comes(sp, x, k, n) && EntryAt(sp, w, j, n).addr == EntryAt(sp, x, k, n).addr {
      LinkedEntry(sp, v, i, level, w, j, m, next);
      LinkedEntry(sp, v, i, level, x, k, m, next);
      if NewEntry(v, i, w, j) {
        SameAddress(sp.gmode.format, w, x, j, next * PAGE_SIZE);
      } else {
        TreeMeans(sp, v, i, level, w, j, x, k, m, next);
      }
    }
  }

  lemma TreeMeans(sp: Space, v: seq<nat>, i: nat, level: nat, w: seq<nat>, j: nat, x: seq<nat>, k: nat, m: Store, next: nat)
    requires MayLink(sp, v, i, level, m, next)
    ensures ReadApart(sp, w, j, x, k, m)
  {
  }

  /** The leaf `v` gets at `level` leaves no way down to level `k` of `w`. */
  predicate CutsOff(v: seq<nat>, level: nat, w: seq<nat>, k: nat) { k < level && IndicesAgree(v, w, level) }

  /** Whatever could be built still can, but below the leaf. */
  ghost predicate StillBuildable(sp: Space, v: seq<nat>, level: nat, m: Store, n: Store) {
    forall w, k: nat | ForTable(sp, w) && Buildable(sp, w, k, m) && !CutsOff(v, level, w, k) :: Buildable(sp, w, k, n)
  }

  /** A link leaves the tables a tree, takes the page out of the free ones, and lets building go on. */
  lemma LinkKeepsTree(sp: Space, v: seq<nat>, i: nat, level: nat, m: Store, next: nat)
    requires MayLink(sp, v, i, level, m, next)
    ensures var n := LinkedStore(sp, v, i, m, next);
            && TreeShaped(sp, n) && Allocated(sp, n, next + 1) && FreeIsClean(n, next + 1) && StillBuildable(sp, v, level, m, n)
  {
    var n, rest := LinkedStore(sp, v, i, m, next), next + 1;
    forall w, j, x, k ensures ReadApart(sp, w, j, x, k, n) { LinkReadsApart(sp, v, i, level, w, j, x, k, m, next); }
    forall w, j ensures EntryBelow(sp, w, j, n, rest) {
      if Comes(sp, w, j, n) { LinkedEntry(sp, v, i, level, w, j, m, next); }
    }
    forall w, k: nat | ForTable(sp, w) && Buildable(sp, w, k, m) ensures Buildable(sp, w, k, n) {
      LinkBuildable(sp, v, i, level, w, k, m, next);
    }
  }

  lemma LinkBuildable(sp: Space, v: seq<nat>, i: nat, level: nat, w: seq<nat>, k: nat, m: Store, next: nat)
    requires MayLink(sp, v, i, level, m, next) && ForTable(sp, w) && Buildable(sp, w, k, m)
    ensures Buildable(sp, w, k, LinkedStore(sp, v, i, m, next))
  {
    hide Usable, LinkedStore, InTable, TreeShaped, Allocated;
    forall j | k <= j < |w| ensures Usable(sp, w, j, k, LinkedStore(sp, v, i, m, next)) {
      assert Usable(sp, w, j, k, m);
      LinkUsable(sp, v, i, level, w, j, k, m, next);
    }
  }

  lemma LinkUsable(sp: Space, v: seq<nat>, i: nat, level: nat, w: seq<nat>, j: nat, k: nat, m: Store, next: nat)
    requires MayLink(sp, v, i, level, m, next) && ForTable(sp, w) && j < |w| && Usable(sp, w, j, k, m)
    ensures Usable(sp, w, j, k, LinkedStore(sp, v, i, m, next))
  {
    var n := LinkedStore(sp, v, i, m, next);
    LinkEdits(sp, v, i, level, m, next);
    LinkTables(sp, v, i, level, w, j, m, next);
    if Comes(sp, w, j, n) {
      LinkedEntry(sp, v, i, level, w, j, m, next);
      TreeMeans(sp, v, i, level, v, i, w, j, m, next);
      if NewEntry(v, i, w, j) { CleanAt(m, next, EntryAt(sp, w, j, n).addr); }
      hide LinkedStore, Fetch, Pow2, Pointer, TreeShaped, Allocated, InTable, TableAt, Linked, Buildable;
    }
  }

  // ---------------------------------------------------------------- writing the leaf

  predicate NewLeaf(sp: Space, p: Pte, level: nat)
    requires sp.gmode.Paged?
  {
    !Malformed(sp, p) && IsLeaf(p) && (level != 0 ==> !p.N) && Narrow(p, sp.gmode.format.PteSize()) == p
  }

  /** The builder may write the leaf where `v` comes at `level`. */
  ghost predicate MayWrite(sp: Space, v: seq<nat>, level: nat, leaf: Pte, m: Store, next: nat) {
    && Comes(sp, v, level, m) && TreeShaped(sp, m) && Allocated(sp, m, next) && Buildable(sp, v, level, m)
    && NewLeaf(sp, leaf, level)
  }

  function LeafStore(sp: Space, v: seq<nat>, level: nat, leaf: Pte, m: Store): Store
    requires Comes(sp, v, level, m)
  {
    Put(m, EntryAt(sp, v, level, m), leaf)
  }

  lemma LeafTables(sp: Space, v: seq<nat>, level: nat, leaf: Pte, w: seq<nat>, j: nat, m: Store, next: nat)
    requires MayWrite(sp, v, level, leaf, m, next) && ForTable(sp, w) && j < |w|
    ensures var n := LeafStore(sp, v, level, leaf, m);
            TableAt(sp, w, j, n) == if j >= level || !IndicesAgree(v, w, level) then TableAt(sp, w, j, m) else None
  {
    var n := LeafStore(sp, v, level, leaf, m);
    hide Fetch, Pow2, Pointer, TreeShaped, Allocated, IndicesAgree;
    LeafEdits(sp, v, level, leaf, m, next);
    if j >= level || !IndicesAgree(v, w, level) {
      TableElsewhere(sp, v, level, w, j, m, n, next);
    } else {
      LeafFound(sp, v, level, leaf, w, m, next);
      NoTableBelow(sp, w, level, j, n);
    }
  }

  lemma LeafEdits(sp: Space, v: seq<nat>, level: nat, leaf: Pte, m: Store, next: nat)
    requires MayWrite(sp, v, level, leaf, m, next)
    ensures var n := LeafStore(sp, v, level, leaf, m);
            Edited(sp, v, level, m, n, next) && Fetch(n, EntryAt(sp, v, level, m)) == leaf && !Pointer(sp, leaf)
  {
    hide Pow2, TreeShaped, Allocated, TableAt, InTable;
  }

  /** A walk that agrees with `v` down to `level` now reads the leaf there. */
  lemma LeafFound(sp: Space, v: seq<nat>, level: nat, leaf: Pte, w: seq<nat>, m: Store, next: nat)
    requires MayWrite(sp, v, level, leaf, m, next) && ForTable(sp, w) && IndicesAgree(v, w, level)
    ensures var n := LeafStore(sp, v, level, leaf, m);
            Comes(sp, w, level, n) && EntryAt(sp, w, level, n) == EntryAt(sp, v, level, m)
  {
    var n := LeafStore(sp, v, level, leaf, m);
    LeafEdits(sp, v, level, leaf, m, next);
    TableElsewhere(sp, v, level, w, level, m, n, next);
    SameTable(sp, v, w, level, m);
    hide Fetch, Pow2, Pointer, TreeShaped, Allocated, TableAt, InTable;
  }

  lemma LeafWalks(sp: Space, v: seq<nat>, level: nat, leaf: Pte, w: seq<nat>, m: Store, next: nat)
    requires MayWrite(sp, v, level, leaf, m, next) && ForTable(sp, w)
    ensures Walk(sp, w, LeafStore(sp, v, level, leaf, m)) ==
              if IndicesAgree(v, w, level) then GLeaf(EntryAt(sp, v, level, m).addr, leaf, level) else Walk(sp, w, m)
  {
    var n := LeafStore(sp, v, level, leaf, m);
    LeafEdits(sp, v, level, leaf, m, next);
    if IndicesAgree(v, w, level) {
      LeafFound(sp, v, level, leaf, w, m, next);
      WalkComes(sp, w, level, n);
      assert Usable(sp, v, level, level, m);
      LeafRead(sp, v, level, leaf, w, m, next);
    } else {
      WalkElsewhere(sp, v, level, w, |w| - 1, m, n, next);
    }
  }

  lemma LeafRead(sp: Space, v: seq<nat>, level: nat, leaf: Pte, w: seq<nat>, m: Store, next: nat)
    requires MayWrite(sp, v, level, leaf, m, next) && Comes(sp, w, level, LeafStore(sp, v, level, leaf, m))
    requires EntryAt(sp, w, level, LeafStore(sp, v, level, leaf, m)) == EntryAt(sp, v, level, m)
    requires TableAt(sp, w, level, LeafStore(sp, v, level, leaf, m)) == TableAt(sp, v, level, m)
    ensures var n := LeafStore(sp, v, level, leaf, m);
            GReachFrom(sp, w, level, TableAt(sp, w, level, n).value, n) == GLeaf(EntryAt(sp, v, level, m).addr, leaf, level)
  {
    LeafEdits(sp, v, level, leaf, m, next);
    assert Usable(sp, v, level, level, m);
    hide Fetch, Pow2, TreeShaped, Allocated, TableAt, InTable, Malformed;
  }

  lemma LeafKeepsTree(sp: Space, v: seq<nat>, level: nat, leaf: Pte, m: Store, next: nat)
    requires MayWrite(sp, v, level, leaf, m, next)
    ensures var n := LeafStore(sp, v, level, leaf, m);
            TreeShaped(sp, n) && Allocated(sp, n, next) && StillBuildable(sp, v, level, m, n)
  {
    var n := LeafStore(sp, v, level, leaf, m);
    forall w, j | Comes(sp, w, j, n) ensures Comes(sp, w, j, m) && EntryAt(sp, w, j, n) == EntryAt(sp, w, j, m) {
      LeafTables(sp, v, level, leaf, w, j, m, next);
    }
    forall w, j, x, k ensures ReadApart(sp, w, j, x, k, n) { assert ReadApart(sp, w, j, x, k, m); }
    forall w, j ensures EntryBelow(sp, w, j, n, next) { assert EntryBelow(sp, w, j, m, next); }
    forall w, k: nat | ForTable(sp, w) && Buildable(sp, w, k, m) && !CutsOff(v, level, w, k) ensures Buildable(sp, w, k, n) {
      LeafBuildable(sp, v, level, leaf, w, k, m, next);
    }
  }

  lemma LeafBuildable(sp: Space, v: seq<nat>, level: nat, leaf: Pte, w: seq<nat>, k: nat, m: Store, next: nat)
    requires MayWrite(sp, v, level, leaf, m, next) && ForTable(sp, w) && Buildable(sp, w, k, m) && !CutsOff(v, level, w, k)
    ensures Buildable(sp, w, k, LeafStore(sp, v, level, leaf, m))
  {
    hide Usable, LeafStore, InTable, IndicesAgree, TreeShaped, Allocated;
    forall j | k <= j < |w| ensures Usable(sp, w, j, k, LeafStore(sp, v, level, leaf, m)) {
      assert Usable(sp, w, j, k, m);
      LeafUsable(sp, v, level, leaf, w, j, k, m, next);
    }
  }

  lemma LeafUsable(sp: Space, v: seq<nat>, level: nat, leaf: Pte, w: seq<nat>, j: nat, k: nat, m: Store, next: nat)
    requires MayWrite(sp, v, level, leaf, m, next) && ForTable(sp, w) && k <= j < |w| && Usable(sp, w, j, k, m) && !CutsOff(v, level, w, k)
    ensures Usable(sp, w, j, k, LeafStore(sp, v, level, leaf, m))
  {
    var n := LeafStore(sp, v, level, leaf, m);
    LeafEdits(sp, v, level, leaf, m, next);
    LeafTables(sp, v, level, leaf, w, j, m, next);
    if Comes(sp, w, j, n) {
      assert ReadApart(sp, v, level, w, j, m);
      assert EntryBelow(sp, w, j, m, next);
      hide LeafStore, Fetch, Pow2, Pointer, TreeShaped, Allocated, InTable, TableAt, Buildable, IndicesAgree;
    }
  }

  // ---------------------------------------------------------------- building is a map update

  /** Just the walks that agree with `v` down to `level` find the leaf, the others find what they
      found, and the tables are ready to be built on again. */
  ghost predicate Inserted(sp: Space, v: seq<nat>, level: nat, leaf: Pte, m: Store, b: Built)
    requires sp.gmode.Paged?
  {
    && b.addr.Some? && TreeShaped(sp, b.store) && Allocated(sp, b.store, b.next) && FreeIsClean(b.store, b.next)
    && StillBuildable(sp, v, level, m, b.store)
    && forall w | ForTable(sp, w) ::
         Walk(sp, w, b.store) == if IndicesAgree(v, w, level) then GLeaf(b.addr.value, leaf, level) else Walk(sp, w, m)
  }

  /** Everything the builder asks of the tables and of the free pages. */
  ghost predicate MayBuild(sp: Space, v: seq<nat>, level: nat, leaf: Pte, m: Store, next: nat) {
    && ValidSpace(sp) && ForTable(sp, v) && level < |v| && NewLeaf(sp, leaf, level)
    && TreeShaped(sp, m) && Allocated(sp, m, next) && FreeIsClean(m, next) && Buildable(sp, v, level, m)
  }

  lemma WriteStep(sp: Space, v: seq<nat>, level: nat, leaf: Pte, m: Store, next: nat)
    requires MayBuild(sp, v, level, leaf, m, next) && Comes(sp, v, level, m)
    ensures var b := BuildFrom(sp.gmode.format, v, level, level, TableAt(sp, v, level, m).value, leaf, m, next);
            Inserted(sp, v, level, leaf, m, b) && b.next == next
  {
    hide MayWrite, Buildable, TreeShaped, Allocated, TableAt, IndicesAgree, Pow2, Fetch, ValidSpace;
    assert MayWrite(sp, v, level, leaf, m, next) by { WriteReady(sp, v, level, leaf, m, next); }
    LeafKeepsTree(sp, v, level, leaf, m, next);
    UsableAt(sp, v, level, level, m);
    var n := LeafStore(sp, v, level, leaf, m);
    forall w | ForTable(sp, w) ensures Walk(sp, w, n) ==
               if IndicesAgree(v, w, level) then GLeaf(EntryAt(sp, v, level, m).addr, leaf, level) else Walk(sp, w, m) {
      LeafWalks(sp, v, level, leaf, w, m, next);
    }
  }

  lemma WriteReady(sp: Space, v: seq<nat>, level: nat, leaf: Pte, m: Store, next: nat)
    requires MayBuild(sp, v, level, leaf, m, next) && Comes(sp, v, level, m)
    ensures MayWrite(sp, v, level, leaf, m, next)
  {
  }

  lemma UsableAt(sp: Space, v: seq<nat>, j: nat, level: nat, m: Store)
    requires ForTable(sp, v) && level <= j < |v| && Buildable(sp, v, level, m)
    ensures Usable(sp, v, j, level, m)
  {
  }

  /** A valid entry is followed. */
  lemma FollowStep(sp: Space, v: seq<nat>, i: nat, level: nat, leaf: Pte, m: Store, next: nat)
    requires Comes(sp, v, i, m) && level < i && Usable(sp, v, i, level, m) && Fetch(m, EntryAt(sp, v, i, m)).V
    ensures Comes(sp, v, i - 1, m)
    ensures BuildFrom(sp.gmode.format, v, i, level, TableAt(sp, v, i, m).value, leaf, m, next) ==
            BuildFrom(sp.gmode.format, v, i - 1, level, TableAt(sp, v, i - 1, m).value, leaf, m, next)
  {
    hide Pow2;
  }

  /** An empty one is linked to the next free page. */
  lemma LinkStep(sp: Space, v: seq<nat>, i: nat, level: nat, leaf: Pte, m: Store, next: nat)
    requires MayLink(sp, v, i, level, m, next) && Usable(sp, v, i, level, m)
    ensures BuildFrom(sp.gmode.format, v, i, level, TableAt(sp, v, i, m).value, leaf, m, next) ==
            BuildFrom(sp.gmode.format, v, i - 1, level, next * PAGE_SIZE, leaf, LinkedStore(sp, v, i, m, next), next + 1)
  {
    hide Pow2, TreeShaped, Allocated, FreeIsClean, Buildable, TableAt, InTable, Pointer, Fetch;
  }

  lemma LinkReady(sp: Space, v: seq<nat>, i: nat, level: nat, leaf: Pte, m: Store, next: nat)
    requires MayBuild(sp, v, level, leaf, m, next) && Comes(sp, v, i, m) && level < i && Room(sp, next, i - level)
    requires Usable(sp, v, i, level, m) && !Fetch(m, EntryAt(sp, v, i, m)).V
    ensures MayLink(sp, v, i, level, m, next) && Room(sp, next + 1, i - 1 - level)
    ensures var n := LinkedStore(sp, v, i, m, next);
            && MayBuild(sp, v, level, leaf, n, next + 1) && StillBuildable(sp, v, level, m, n)
            && TableAt(sp, v, i - 1, n) == Some(next * PAGE_SIZE)
            && forall w | ForTable(sp, w) :: Walk(sp, w, n) == Walk(sp, w, m)
  {
    assert IndicesAgree(v, v, i);
    hide TableAt, IndicesAgree, Pow2, Fetch, TreeShaped, Allocated, FreeIsClean, Buildable, ValidSpace, LinkedStore;
    LinkKeepsTree(sp, v, i, level, m, next);
    LinkReaches(sp, v, i, level, v, m, next);
    var n := LinkedStore(sp, v, i, m, next);
    forall w | ForTable(sp, w) ensures Walk(sp, w, n) == Walk(sp, w, m) { LinkKeepsWalks(sp, v, i, level, w, m, next); }
  }

  lemma InsertedBefore(sp: Space, v: seq<nat>, level: nat, leaf: Pte, m: Store, n: Store, b: Built)
    requires sp.gmode.Paged? && Inserted(sp, v, level, leaf, n, b) && StillBuildable(sp, v, level, m, n)
    requires forall w | ForTable(sp, w) :: Walk(sp, w, n) == Walk(sp, w, m)
    ensures Inserted(sp, v, level, leaf, m, b)
  {
  }

  lemma {:induction false} BuildUpdatesWalks(sp: Space, v: seq<nat>, i: nat, level: nat, leaf: Pte, m: Store, next: nat)
    requires MayBuild(sp, v, level, leaf, m, next) && Comes(sp, v, i, m) && level <= i && Room(sp, next, i - level)
    ensures var b := BuildFrom(sp.gmode.format, v, i, level, TableAt(sp, v, i, m).value, leaf, m, next);
            Inserted(sp, v, level, leaf, m, b) && next <= b.next <= next + (i - level)
    decreases i
  {
    hide BuildFrom, TableAt, Pow2, Fetch, TreeShaped, Allocated, FreeIsClean, Buildable, ValidSpace, LinkedStore, Inserted, InTable;
    UsableAt(sp, v, i, level, m);
    if i == level {
      WriteStep(sp, v, level, leaf, m, next);
    } else if Fetch(m, EntryAt(sp, v, i, m)).V {
      FollowStep(sp, v, i, level, leaf, m, next);
      BuildUpdatesWalks(sp, v, i - 1, level, leaf, m, next);
    } else {
      LinkReady(sp, v, i, level, leaf, m, next);
      LinkStep(sp, v, i, level, leaf, m, next);
      var n := LinkedStore(sp, v, i, m, next);
      BuildUpdatesWalks(sp, v, i - 1, level, leaf, n, next + 1);
      InsertedBefore(sp, v, level, leaf, m, n, BuildFrom(sp.gmode.format, v, i - 1, level, next * PAGE_SIZE, leaf, n, next + 1));
    }
  }

  /** Addresses of the mode's width are told apart by the table indices. */
  lemma {:induction false} IndicesTellApart(sp: Space, x: nat, y: nat, level: nat)
    requires sp.gmode.Paged? && level < sp.gmode.format.Levels() && GpaFits(sp, x) && GpaFits(sp, y) && ValidSpace(sp)
    requires var f := sp.gmode.format; IndicesAgree(Indices(f, f.RootWidening(), x), Indices(f, f.RootWidening(), y), level)
    ensures SameBlock(x, y, sp.gmode.format.Shift(level))
    decreases sp.gmode.format.Levels() - level
  {
    var f := sp.gmode.format;
    var w := f.RootWidening();
    assert Indices(f, w, x)[level] == Indices(f, w, y)[level];
    assert Vpn(f, w, level, x) == Vpn(f, w, level, y);
    if level == f.Levels() - 1 {
      RootIndex(sp, x);
      RootIndex(sp, y);
    } else {
      IndicesTellApart(sp, x, y, level + 1);
      ShrShr(x, f.Shift(level), f.IndexBits());
      ShrShr(y, f.Shift(level), f.IndexBits());
      var a, b := Shr(x, f.Shift(level)), Shr(y, f.Shift(level));
      SpliceUnique(a, b, b, f.IndexBits());
      SpliceUnique(b, b, b, f.IndexBits());
    }
  }

  /** The root index of an address of the mode's width is all of its high bits. */
  lemma RootIndex(sp: Space, x: nat)
    requires sp.gmode.Paged? && GpaFits(sp, x) && ValidSpace(sp)
    ensures var f := sp.gmode.format; Vpn(f, f.RootWidening(), f.Levels() - 1, x) == Shr(x, f.Shift(f.Levels() - 1))
  {
    var f := sp.gmode.format;
    var k := f.Shift(f.Levels() - 1);
    var n := f.IndexBits() + f.RootWidening();
    WidthConstants();
    hide Pow2;
    assert x < Pow2(k + n) by { if f.Sv32? { hide Pow2; Pow2Mono(34, 35); } else if sp.sxl { Pow2Mono(34, k + n); } }
    ShrShr(x, k, n);
    ShrZero(x, k + n);
    ShrZero(Shr(x, k), n);
  }

  /** The table indices of a guest address */
  function Path(sp: Space, gpa: nat): (v: seq<nat>)
    requires sp.gmode.Paged?
    ensures |v| == sp.gmode.format.Levels()
  {
    Indices(sp.gmode.format, sp.gmode.format.RootWidening(), gpa)
  }

  lemma PathForTable(sp: Space, gpa: nat)
    requires ValidSpace(sp) && sp.gmode.Paged? && GpaFits(sp, gpa)
    ensures ForTable(sp, Path(sp, gpa))
  {
    SecondStageIndices(sp.gmode.format, gpa);
  }

  /** The region of 2^Shift(level) bytes around `gpa` is the addresses whose paths agree down to `level`. */
  lemma RegionIsPath(sp: Space, gpa: nat, x: nat, level: nat)
    requires ValidSpace(sp) && sp.gmode.Paged? && level < sp.gmode.format.Levels() && GpaFits(sp, gpa) && GpaFits(sp, x)
    ensures IndicesAgree(Path(sp, gpa), Path(sp, x), level) <==> SameBlock(gpa, x, sp.gmode.format.Shift(level))
  {
    var f := sp.gmode.format;
    if SameBlock(gpa, x, f.Shift(level)) { IndicesInBlock(f, f.RootWidening(), gpa, x, level, f.Shift(level)); }
    else if IndicesAgree(Path(sp, gpa), Path(sp, x), level) { IndicesTellApart(sp, gpa, x, level); }
  }

  /** `add_g_stage_pte` of `leaf` for `gpa` at `level`, from the root */
  function Build(sp: Space, gpa: nat, level: nat, leaf: Pte, m: Store, next: nat): Built
    requires sp.gmode.Paged?
  {
    BuildFrom(sp.gmode.format, Path(sp, gpa), sp.gmode.format.Levels() - 1, level, sp.gppn * PAGE_SIZE, leaf, m, next)
  }

  /** A leaf can be put at level `k` for `x`. */
  predicate CanPlace(sp: Space, x: nat, k: nat, m: Store)
    requires sp.gmode.Paged?
  {
    ForTable(sp, Path(sp, x)) && Buildable(sp, Path(sp, x), k, m)
  }

  /** The builder acts on what the walk finds as a map update: every address in the aligned region of
      `gpa` at `level` now comes to the new leaf, and every other address to what it came to before.
      Leaves can be placed wherever they could, but below the new one. */
  lemma BuildIsMapUpdate(sp: Space, gpa: nat, level: nat, leaf: Pte, m: Store, next: nat)
    requires sp.gmode.Paged? && GpaFits(sp, gpa) && level < sp.gmode.format.Levels()
    requires MayBuild(sp, Path(sp, gpa), level, leaf, m, next) && Room(sp, next, sp.gmode.format.Levels() - 1 - level)
    ensures var b := Build(sp, gpa, level, leaf, m, next);
            && b.addr.Some? && next <= b.next < next + sp.gmode.format.Levels() && b.next <= next + (sp.gmode.format.Levels() - 1 - level)
            && TreeShaped(sp, b.store) && Allocated(sp, b.store, b.next) && FreeIsClean(b.store, b.next)
            && (forall x: nat | GpaFits(sp, x) ::
                 GReach(sp, x, b.store) ==
                   if SameBlock(gpa, x, sp.gmode.format.Shift(level)) then GLeaf(b.addr.value, leaf, level) else GReach(sp, x, m))
            && (forall x: nat, k: nat | GpaFits(sp, x) && CanPlace(sp, x, k, m) &&
                                        !(k < level && SameBlock(gpa, x, sp.gmode.format.Shift(level))) ::
                 CanPlace(sp, x, k, b.store))
  {
    var f := sp.gmode.format;
    BuildUpdatesWalks(sp, Path(sp, gpa), f.Levels() - 1, level, leaf, m, next);
    var b := Build(sp, gpa, level, leaf, m, next);
    hide BuildFrom, TreeShaped, Allocated, FreeIsClean, Buildable, Pow2, IndicesAgree, SameBlock, Path, ValidSpace;
    forall x: nat | GpaFits(sp, x)
      ensures GReach(sp, x, b.store) ==
                if SameBlock(gpa, x, f.Shift(level)) then GLeaf(b.addr.value, leaf, level) else GReach(sp, x, m)
    {
      PathForTable(sp, x);
      WalkOfPath(sp, x, m);
      WalkOfPath(sp, x, b.store);
      RegionIsPath(sp, gpa, x, level);
    }
    forall x: nat, k: nat | GpaFits(sp, x) && CanPlace(sp, x, k, m) && !(k < level && SameBlock(gpa, x, f.Shift(level)))
      ensures CanPlace(sp, x, k, b.store)
    {
      RegionIsPath(sp, gpa, x, level);
    }
  }

  lemma WalkOfPath(sp: Space, x: nat, m: Store)
    requires sp.gmode.Paged? && GpaFits(sp, x) && ForTable(sp, Path(sp, x))
    ensures GReach(sp, x, m) == Walk(sp, Path(sp, x), m)
  {
  }

  /** An empty root is a tree to start from. */
  lemma EmptyRootIsTree(sp: Space, m: Store, next: nat)
    requires sp.gmode.Paged? && sp.gppn + 4 <= next
    requires forall s: Slot | sp.gppn * PAGE_SIZE <= s.addr < (sp.gppn + 4) * PAGE_SIZE :: s !in m.words
    ensures TreeShaped(sp, m) && Allocated(sp, m, next)
  {
    forall w, j: nat | Comes(sp, w, j, m) ensures j == |w| - 1 {
      if j < |w| - 1 {
        var top := |w| - 1;
        assert Fetch(m, EntryAt(sp, w, top, m)) == ZERO_PTE;
        NoTableBelow(sp, w, top, j, m);
      }
    }
    forall v, i, w, j ensures ReadApart(sp, v, i, w, j, m) {
      if Comes(sp, v, i, m) && Comes(sp, w, j, m) && EntryAt(sp, v, i, m).addr == EntryAt(sp, w, j, m).addr {
        SameAddress(sp.gmode.format, v, w, i, sp.gppn * PAGE_SIZE);
      }
    }
    forall v, i ensures EntryBelow(sp, v, i, m, next) {}
  }

  /** A root with nothing in it and no faults injected, from which on memory is clean. */
  ghost predicate EmptyRoot(sp: Space, m: Store) {
    && ValidSpace(sp) && sp.gmode.Paged? && FreeIsClean(m, sp.gppn) && (sp.gppn + 4) * PAGE_SIZE <= Pow2(sp.pas)
    && forall s: Slot | sp.gppn * PAGE_SIZE <= s.addr < (sp.gppn + 4) * PAGE_SIZE :: s !in m.words
  }

  /** In an empty root any leaf can be placed, and no address is mapped. */
  lemma EmptyRootMapsNothing(sp: Space, m: Store, x: nat, k: nat)
    requires EmptyRoot(sp, m) && GpaFits(sp, x)
    ensures CanPlace(sp, x, k, m) && GReach(sp, x, m) == GStop(GstPageFault)
  {
    PathForTable(sp, x);
    var v := Path(sp, x);
    var top := |v| - 1;
    hide Path, Pow2, FreeIsClean;
    CleanAt(m, sp.gppn, EntryAt(sp, v, top, m).addr);
    assert Fetch(m, EntryAt(sp, v, top, m)) == ZERO_PTE;
    WalkOfPath(sp, x, m);
    forall j | k <= j < |v| ensures Usable(sp, v, j, k, m) {
      if j < top { NoTableBelow(sp, v, top, j, m); }
    }
  }

  // ---------------------------------------------------------------- many mappings

  datatype Mapping = Mapping(gpa: nat, level: nat, leaf: Pte)

  /** Calls of `add_g_stage_pte` one after the other, if none fails */
  function BuildAll(sp: Space, maps: seq<Mapping>, m: Store, next: nat): Option<(Store, nat)>
    requires sp.gmode.Paged?
    decreases |maps|
  {
    if maps == [] then Some((m, next))
    else
      var b := Build(sp, maps[0].gpa, maps[0].level, maps[0].leaf, m, next);
      if b.addr.None? then None else BuildAll(sp, maps[1..], b.store, b.next)
  }

  predicate Maps(sp: Space, e: Mapping, x: nat)
    requires sp.gmode.Paged?
  {
    SameBlock(e.gpa, x, sp.gmode.format.Shift(e.level))
  }

  /** The mapping last made for the address. */
  function LastFor(sp: Space, maps: seq<Mapping>, x: nat): Option<Mapping>
    requires sp.gmode.Paged?
  {
    if maps == [] then None
    else
      var later := LastFor(sp, maps[1..], x);
      if later.Some? then later else if Maps(sp, maps[0], x) then Some(maps[0]) else None
  }

  /** No mapping is made below the leaf of an earlier one. */
  predicate NoneCutOff(sp: Space, maps: seq<Mapping>)
    requires sp.gmode.Paged?
  {
    forall i, j | 0 <= i < j < |maps| :: !(maps[j].level < maps[i].level && Maps(sp, maps[i], maps[j].gpa))
  }

  ghost predicate MayPlace(sp: Space, e: Mapping, m: Store)
    requires sp.gmode.Paged?
  {
    GpaFits(sp, e.gpa) && e.level < sp.gmode.format.Levels() && NewLeaf(sp, e.leaf, e.level) && CanPlace(sp, e.gpa, e.level, m)
  }

  /** Everything that making the mappings asks of the tables. */
  ghost predicate MayBuildAll(sp: Space, maps: seq<Mapping>, m: Store, next: nat)
    requires sp.gmode.Paged?
  {
    && ValidSpace(sp) && TreeShaped(sp, m) && Allocated(sp, m, next) && FreeIsClean(m, next)
    && Room(sp, next, |maps| * (sp.gmode.format.Levels() - 1))
    && NoneCutOff(sp, maps) && forall k | 0 <= k < |maps| :: MayPlace(sp, maps[k], m)
  }

  lemma BuildOne(sp: Space, maps: seq<Mapping>, m: Store, next: nat)
    requires sp.gmode.Paged? && maps != [] && MayBuildAll(sp, maps, m, next)
    ensures var e := maps[0];
            var b := Build(sp, e.gpa, e.level, e.leaf, m, next);
            && b.addr.Some? && MayBuildAll(sp, maps[1..], b.store, b.next)
            && forall x: nat | GpaFits(sp, x) ::
                 GReach(sp, x, b.store) == if Maps(sp, e, x) then GLeaf(b.addr.value, e.leaf, e.level) else GReach(sp, x, m)
  {
    hide Build, TreeShaped, Allocated, FreeIsClean, Buildable, GReach, GpaFits, SameBlock, Pow2, NewLeaf, ValidSpace, Path;
    var e, n, k := maps[0], |maps|, sp.gmode.format.Levels() - 1;
    assert n * k == (n - 1) * k + k;
    RoomShrinks(sp, next, (n - 1) * k + k, k - e.level);
    assert MayPlace(sp, e, m);
    BuildIsMapUpdate(sp, e.gpa, e.level, e.leaf, m, next);
    var b := Build(sp, e.gpa, e.level, e.leaf, m, next);
    RoomLeft(sp, next, b.next, (n - 1) * k + k, (n - 1) * k);
    forall i | 0 <= i < n - 1 ensures MayPlace(sp, maps[1..][i], b.store) {
      assert maps[1..][i] == maps[i + 1];
      assert MayPlace(sp, maps[i + 1], m);
    }
  }

  lemma RoomShrinks(sp: Space, next: nat, n: nat, k: nat)
    requires sp.gmode.Paged? && Room(sp, next, n) && k <= n
    ensures Room(sp, next, k)
  {
  }

  lemma RoomLeft(sp: Space, next: nat, next': nat, n: nat, k: nat)
    requires sp.gmode.Paged? && Room(sp, next, n) && next' + k <= next + n
    ensures Room(sp, next', k)
  {
  }

  /** The tables that a series of mappings leaves are a finite map: each address comes to the leaf last
      mapped over it, the others to what they came to before. */
  lemma {:induction false} BuildAllIsMap(sp: Space, maps: seq<Mapping>, m: Store, next: nat, x: nat)
    requires sp.gmode.Paged? && MayBuildAll(sp, maps, m, next) && GpaFits(sp, x)
    ensures var r := BuildAll(sp, maps, m, next);
            && r.Some?
            && match LastFor(sp, maps, x)
               case Some(e) => var q := GReach(sp, x, r.value.0); q.GLeaf? && q.pte == e.leaf && q.level == e.level
               case None => GReach(sp, x, r.value.0) == GReach(sp, x, m)
    decreases |maps|
  {
    hide Build, MayBuildAll, GReach, GpaFits, Maps;
    if maps != [] {
      var e := maps[0];
      BuildOne(sp, maps, m, next);
      var b := Build(sp, e.gpa, e.level, e.leaf, m, next);
      BuildAllIsMap(sp, maps[1..], b.store, b.next, x);
    }
  }

  /** From an empty root: an address is mapped exactly if some mapping covers it, by the last that does. */
  lemma BuiltFromEmpty(sp: Space, maps: seq<Mapping>, m: Store, x: nat)
    requires EmptyRoot(sp, m) && GpaFits(sp, x) && NoneCutOff(sp, maps)
    requires Room(sp, sp.gppn + 4, |maps| * (sp.gmode.format.Levels() - 1))
    requires forall k | 0 <= k < |maps| ::
               GpaFits(sp, maps[k].gpa) && maps[k].level < sp.gmode.format.Levels() && NewLeaf(sp, maps[k].leaf, maps[k].level)
    ensures var r := BuildAll(sp, maps, m, sp.gppn + 4);
            && r.Some?
            && match LastFor(sp, maps, x)
               case Some(e) => var q := GReach(sp, x, r.value.0); q.GLeaf? && q.pte == e.leaf && q.level == e.level
               case None => GReach(sp, x, r.value.0) == GStop(GstPageFault)
  {
    hide BuildAll, TreeShaped, Allocated, CanPlace, GReach, GpaFits, NewLeaf, Pow2, LastFor;
    EmptyRootIsTree(sp, m, sp.gppn + 4);
    forall k | 0 <= k < |maps| ensures MayPlace(sp, maps[k], m) { EmptyRootMapsNothing(sp, m, maps[k].gpa, maps[k].level); }
    EmptyRootMapsNothing(sp, m, x, 0);
    BuildAllIsMap(sp, maps, m, sp.gppn + 4, x);
  }
}
