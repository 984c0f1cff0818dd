/** Building the device directory: on a directory that shares no entries, adding a context makes it the
    one located for its device and leaves every other device's as it was. */
module DirectoryBuilder {
  import opened Bits
  import opened Common
  import opened PageTables
  import opened DeviceContexts
  import opened Directories

  /** Where the walk for `id` reads in the table at `a`, level `i`. */
  function EntryAddr(c: Config, id: nat, i: nat, a: nat): nat {
    a + DeviceIndex(c.caps.msiFlat, i, id) * (if i == 0 then ContextSize(c) else 8)
  }

  /** A page is handed out cleared. */
  function ClearPage(t: Tree, page: nat): Tree {
    t.(ddtes := map k | k in t.ddtes && !InPage(k, page) :: t.ddtes[k], dcs := map k | k in t.dcs && !InPage(k, page) :: t.dcs[k])
  }

  function Linked(e: DirectoryEntry, page: nat): DirectoryEntry { e.(V := true, ppn := page % 0x1000_0000_0000) }

  datatype Built = Built(tree: Tree, next: nat, addr: Option<nat>)

  /** The loop of `add_dev_context` from the table at `a`, level `i` */
  function BuildFrom(c: Config, t: Tree, id: nat, i: nat, a: nat, rec: DeviceRecord, m: Store, next: nat): Built
    decreases i
  {
    var addr := EntryAddr(c, id, i, a);
    if i == 0 then
      if StoreStatus(m, addr).Okay? then Built(t.(dcs := t.dcs[addr := rec]), next, Some(addr)) else Built(t, next, None)
    else if !LoadStatus(m, addr).Okay? then Built(t, next, None)
    else
      var e := EntryIn(t.ddtes, addr);
      if e.V then BuildFrom(c, t, id, i - 1, e.ppn * PAGE_SIZE, rec, m, next)
      else if !StoreStatus(m, addr).Okay? then Built(ClearPage(t, next), next + 1, None)
      else
        var q, t1 := Linked(e, next), ClearPage(t, next);
        BuildFrom(c, t1.(ddtes := t1.ddtes[addr := q]), id, i - 1, q.ppn * PAGE_SIZE, rec, m, next + 1)
  }

  /** `add_dev_context` */
  function Build(c: Config, t: Tree, id: nat, rec: DeviceRecord, m: Store, next: nat): Built
    requires ValidTree(t)
  {
    BuildFrom(c, t, id, t.levels - 1, t.root * PAGE_SIZE, rec, m, next)
  }

  /** The code of `add_dev_context`; pages are handed out in order. */
  method AddDevContext(c: Config, t: Tree, id: nat, rec: DeviceRecord, m: Store, first: nat) returns (b: Built)
    requires ValidTree(t)
    ensures b == Build(c, t, id, rec, m, first)
  {
    hide EntryAddr, ClearPage, Linked;
    var i: nat, a: nat, tree, next := t.levels - 1, t.root * PAGE_SIZE, t, first;
    while i > 0
      invariant BuildFrom(c, tree, id, i, a, rec, m, next) == Build(c, t, id, rec, m, first)
    {
      var addr := EntryAddr(c, id, i, a);
      if !LoadStatus(m, addr).Okay? { return Built(tree, next, None); }
      var e := EntryIn(tree.ddtes, addr);
      if !e.V {
        e := Linked(e, next);
        tree, next := ClearPage(tree, next), next + 1;
        if !StoreStatus(m, addr).Okay? { return Built(tree, next, None); }
        tree := tree.(ddtes := tree.ddtes[addr := e]);
      }
      i := i - 1;
      a := e.ppn * PAGE_SIZE;
    }
    var addr := EntryAddr(c, id, 0, a);
    if !StoreStatus(m, addr).Okay? { return Built(tree, next, None); }
    b := Built(tree.(dcs := tree.dcs[addr := rec]), next, Some(addr));
  }

  // ---------------------------------------------------------------- tables and where they are

  predicate Pointer(e: DirectoryEntry) { e.V && e.reserved0 == 0 && e.reserved1 == 0 }

  /** The table the walk for `id` comes to at level `i`. */
  function TableAt(c: Config, t: Tree, id: nat, i: nat, m: Store): Option<nat>
    requires i < t.levels
    decreases t.levels - i
  {
    if i == t.levels - 1 then Some(t.root * PAGE_SIZE)
    else match TableAt(c, t, id, i + 1, m)
      case None => None
      case Some(a) =>
        var addr := EntryAddr(c, id, i + 1, a);
        if a < Pow2(c.caps.pas) && LoadStatus(m, addr).Okay? && Pointer(EntryIn(t.ddtes, addr)) then
          Some(EntryIn(t.ddtes, addr).ppn * PAGE_SIZE)
        else None
  }

  predicate Comes(c: Config, t: Tree, id: nat, i: nat, m: Store) { i < t.levels && TableAt(c, t, id, i, m).Some? }

  function ReadAt(c: Config, t: Tree, id: nat, i: nat, m: Store): nat
    requires Comes(c, t, id, i, m)
  {
    EntryAddr(c, id, i, TableAt(c, t, id, i, m).value)
  }

  /** The ids have the same indices from level `i` up. */
  predicate Agree(c: Config, t: Tree, x: nat, y: nat, i: nat) {
    forall k | i <= k < t.levels :: DeviceIndex(c.caps.msiFlat, k, x) == DeviceIndex(c.caps.msiFlat, k, y)
  }

  predicate ReadApart(c: Config, t: Tree, x: nat, i: nat, y: nat, j: nat, m: Store) {
    Comes(c, t, x, i, m) && Comes(c, t, y, j, m) && ReadAt(c, t, x, i, m) == ReadAt(c, t, y, j, m) ==> i == j && Agree(c, t, x, y, i)
  }

  /** The tables form a tree. */
  ghost predicate TreeShaped(c: Config, t: Tree, m: Store) { forall x, i, y, j :: ReadApart(c, t, x, i, y, j, m) }

  predicate ReadBelow(c: Config, t: Tree, x: nat, i: nat, m: Store, next: nat) {
    Comes(c, t, x, i, m) ==> ReadAt(c, t, x, i, m) < next * PAGE_SIZE
  }

  /** No table lies in a page still free. */
  ghost predicate Allocated(c: Config, t: Tree, m: Store, next: nat) { forall x, i :: ReadBelow(c, t, x, i, m, next) }

  predicate Room(c: Config, next: nat, n: nat) { (next + n) * PAGE_SIZE <= Pow2(c.caps.pas) && next + n <= 0x1000_0000_0000 }

  /** The entry for `id` at level `i` can be used: accessible and, above the context, empty or a pointer. */
  predicate Usable(c: Config, t: Tree, id: nat, i: nat, m: Store) {
    Comes(c, t, id, i, m) ==>
      var addr := ReadAt(c, t, id, i, m);
      && TableAt(c, t, id, i, m).value < Pow2(c.caps.pas) && LoadStatus(m, addr).Okay? && StoreStatus(m, addr).Okay?
      && (i == 0 ==> addr < Pow2(c.caps.pas))
      && (i > 0 ==> EntryIn(t.ddtes, addr) == NO_ENTRY || Pointer(EntryIn(t.ddtes, addr)))
  }

  predicate Buildable(c: Config, t: Tree, id: nat, m: Store) { forall i | 0 <= i < t.levels :: Usable(c, t, id, i, m) }

  lemma {:induction false} WalkComes(c: Config, t: Tree, id: nat, i: nat, m: Store)
    requires ValidTree(t) && Comes(c, t, id, i, m)
    ensures LocateDevice(c, t, id, m) == LocateDeviceFrom(c, t, id, i, TableAt(c, t, id, i, m).value, m)
    decreases t.levels - i
  {
    hide DeviceIndex, Misconfigured, Pow2, DeviceAt;
    if i < t.levels - 1 { WalkComes(c, t, id, i + 1, m); }
  }

  // ---------------------------------------------------------------- editing one entry

  /** `u` differs from `t` only in what `id` reads at level `i` and in free pages. */
  ghost predicate Edited(c: Config, t: Tree, u: Tree, id: nat, i: nat, m: Store, next: nat)
    requires Comes(c, t, id, i, m)
  {
    && u.levels == t.levels && u.root == t.root
    && forall k: nat | k < next * PAGE_SIZE && k != ReadAt(c, t, id, i, m) ::
         EntryIn(u.ddtes, k) == EntryIn(t.ddtes, k) && (k in u.dcs <==> k in t.dcs) && (k in t.dcs ==> u.dcs[k] == t.dcs[k])
  }

  lemma {:induction false} TableElsewhere(c: Config, t: Tree, u: Tree, x: nat, i: nat, y: nat, j: nat, m: Store, next: nat)
    requires Comes(c, t, x, i, m) && j < t.levels && TreeShaped(c, t, m) && Allocated(c, t, m, next)
    requires Edited(c, t, u, x, i, m, next) && (j >= i || !Agree(c, t, x, y, i))
    ensures TableAt(c, u, y, j, m) == TableAt(c, t, y, j, m)
    decreases t.levels - j
  {
    hide Pointer, EntryIn, Pow2, Agree, EntryAddr;
    if j < t.levels - 1 {
      TableElsewhere(c, t, u, x, i, y, j + 1, m, next);
      assert ReadApart(c, t, x, i, y, j + 1, m);
      assert ReadBelow(c, t, y, j + 1, m, next);
    }
  }

  /** Walks that do not agree with `x` down to the edited entry locate what they located. */
  lemma {:induction false} WalkElsewhere(c: Config, t: Tree, u: Tree, x: nat, i: nat, y: nat, j: nat, m: Store, next: nat)
    requires Comes(c, t, x, i, m) && Comes(c, t, y, j, m) && TreeShaped(c, t, m) && Allocated(c, t, m, next)
    requires Edited(c, t, u, x, i, m, next) && !Agree(c, t, x, y, i)
    ensures var a := TableAt(c, t, y, j, m).value; LocateDeviceFrom(c, u, y, j, a, m) == LocateDeviceFrom(c, t, y, j, a, m)
    decreases j
  {
    hide EntryIn, Pow2, Agree, Misconfigured, DeviceIndex;
    assert ReadApart(c, t, x, i, y, j, m);
    assert ReadBelow(c, t, y, j, m, next);
    var a, addr := TableAt(c, t, y, j, m).value, ReadAt(c, t, y, j, m);
    if j > 0 && a < Pow2(c.caps.pas) && LoadStatus(m, addr).Okay? && Pointer(EntryIn(t.ddtes, addr)) {
      WalkElsewhere(c, t, u, x, i, y, j - 1, m, next);
    }
  }

  lemma {:induction false} SameTable(c: Config, t: Tree, x: nat, y: nat, i: nat, m: Store)
    requires i < t.levels && Agree(c, t, x, y, i)
    ensures TableAt(c, t, y, i, m) == TableAt(c, t, x, i, m)
    decreases t.levels - i
  {
    hide Pointer, EntryIn, Pow2, DeviceIndex;
    if i < t.levels - 1 { SameTable(c, t, x, y, i + 1, m); }
  }

  lemma {:induction false} NoTableBelow(c: Config, t: Tree, y: nat, i: nat, j: nat, m: Store)
    requires j < i < t.levels
    requires Comes(c, t, y, i, m) ==> !Pointer(EntryIn(t.ddtes, ReadAt(c, t, y, i, m)))
    ensures TableAt(c, t, y, j, m).None?
    decreases i - j
  {
    hide Pointer, EntryIn, Pow2, EntryAddr;
    if j + 1 < i { NoTableBelow(c, t, y, i, j + 1, m); }
  }

  // ---------------------------------------------------------------- linking a free page

  function LinkedTree(c: Config, t: Tree, x: nat, i: nat, m: Store, next: nat): Tree
    requires Comes(c, t, x, i, m)
  {
    var u := ClearPage(t, next);
    u.(ddtes := u.ddtes[ReadAt(c, t, x, i, m) := Linked(NO_ENTRY, next)])
  }

  ghost predicate MayLink(c: Config, t: Tree, x: nat, i: nat, m: Store, next: nat) {
    && ValidTree(t) && 0 < i && Comes(c, t, x, i, m) && TreeShaped(c, t, m) && Allocated(c, t, m, next) && FreeIsClean(m, next)
    && Buildable(c, t, x, m) && EntryIn(t.ddtes, ReadAt(c, t, x, i, m)) == NO_ENTRY && Room(c, next, 1)
  }

  lemma LinkEdits(c: Config, t: Tree, x: nat, i: nat, m: Store, next: nat)
    requires MayLink(c, t, x, i, m, next)
    ensures var u := LinkedTree(c, t, x, i, m, next);
            && Edited(c, t, u, x, i, m, next) && EntryIn(u.ddtes, ReadAt(c, t, x, i, m)) == Linked(NO_ENTRY, next)
            && Pointer(Linked(NO_ENTRY, next)) && Linked(NO_ENTRY, next).ppn == next
            && (forall k: nat | InPage(k, next) :: EntryIn(u.ddtes, k) == NO_ENTRY && k !in u.dcs)
  {
    assert ReadBelow(c, t, x, i, m, next);
    hide Pow2, TreeShaped, Allocated, FreeIsClean, TableAt, Buildable, EntryAddr;
  }

  lemma EntryInPage(c: Config, id: nat, i: nat, page: nat)
    ensures InPage(EntryAddr(c, id, i, page * PAGE_SIZE), page)
  {
    SmallPowers();
    Pow2Plus8(0);
    assert Pow2(9) == 2 * Pow2(8) && Pow2(8) == 4 * Pow2(6) && Pow2(7) == 2 * Pow2(6);
    FieldBound(5, 0, id);
    FieldBound(6, 0, id);
    FieldBound(14, 6, id);
    FieldBound(15, 7, id);
    FieldBound(23, 15, id);
    FieldBound(23, 16, id);
    hide GetBits, Pow2;
  }

  lemma LinkReaches(c: Config, t: Tree, x: nat, i: nat, y: nat, m: Store, next: nat)
    requires MayLink(c, t, x, i, m, next) && Agree(c, t, x, y, i)
    ensures var u := LinkedTree(c, t, x, i, m, next);
            TableAt(c, u, y, i, m) == TableAt(c, t, x, i, m) && TableAt(c, u, y, i - 1, m) == Some(next * PAGE_SIZE)
  {
    var u := LinkedTree(c, t, x, i, m, next);
    LinkEdits(c, t, x, i, m, next);
    TableElsewhere(c, t, u, x, i, y, i, m, next);
    SameTable(c, t, x, y, i, m);
    assert Usable(c, t, x, i, m);
    assert EntryAddr(c, y, i, TableAt(c, t, x, i, m).value) == ReadAt(c, t, x, i, m);
    hide LinkedTree, EntryIn, Pow2, Pointer, TreeShaped, Allocated, FreeIsClean, Linked, Agree, EntryAddr, Buildable;
  }

  /** After the link, walks agreeing with `x` down to level `i` come to the new page at level `i - 1`
      and no further; all others come where they came. */
  lemma LinkTables(c: Config, t: Tree, x: nat, i: nat, y: nat, j: nat, m: Store, next: nat)
    requires MayLink(c, t, x, i, m, next) && j < t.levels
    ensures var u := LinkedTree(c, t, x, i, m, next);
            TableAt(c, u, y, j, m) ==
              if j >= i || !Agree(c, t, x, y, i) then TableAt(c, t, y, j, m)
              else if j == i - 1 then Some(next * PAGE_SIZE) else None
  {
    var u := LinkedTree(c, t, x, i, m, next);
    LinkEdits(c, t, x, i, m, next);
    hide LinkedTree, EntryIn, Pow2, TreeShaped, Allocated, FreeIsClean, Linked, Agree, Edited, Buildable;
    if j >= i || !Agree(c, t, x, y, i) {
      TableElsewhere(c, t, u, x, i, y, j, m, next);
    } else {
      LinkReaches(c, t, x, i, y, m, next);
      if j < i - 1 {
        EntryInPage(c, y, i - 1, next);
        NoTableBelow(c, u, y, i - 1, j, m);
      }
    }
  }

  /** An id that now comes to the empty page is as unknown as before. */
  lemma FindsNothing(c: Config, t: Tree, x: nat, i: nat, y: nat, m: Store, next: nat)
    requires MayLink(c, t, x, i, m, next) && Agree(c, t, x, y, i)
    ensures LocateDeviceFrom(c, t, y, i, TableAt(c, t, x, i, m).value, m) == Failed(258)
    ensures LocateDeviceFrom(c, LinkedTree(c, t, x, i, m, next), y, i - 1, next * PAGE_SIZE, m) == Failed(258)
  {
    LinkEdits(c, t, x, i, m, next);
    assert Usable(c, t, x, i, m);
    assert EntryAddr(c, y, i, TableAt(c, t, x, i, m).value) == ReadAt(c, t, x, i, m);
    EntryInPage(c, y, i - 1, next);
    CleanAt(m, next, EntryAddr(c, y, i - 1, next * PAGE_SIZE));
    var u := LinkedTree(c, t, x, i, m, next);
    assert EntryIn(u.ddtes, EntryAddr(c, y, i - 1, next * PAGE_SIZE)) == NO_ENTRY;
    hide LinkedTree, EntryIn, Pow2, TreeShaped, Allocated, Agree, TableAt, DeviceIndex, Buildable;
  }

  lemma LinkKeepsWalks(c: Config, t: Tree, x: nat, i: nat, y: nat, m: Store, next: nat)
    requires MayLink(c, t, x, i, m, next)
    ensures LocateDevice(c, LinkedTree(c, t, x, i, m, next), y, m) == LocateDevice(c, t, y, m)
  {
    var u := LinkedTree(c, t, x, i, m, next);
    LinkEdits(c, t, x, i, m, next);
    if Agree(c, t, x, y, i) {
      LinkReaches(c, t, x, i, y, m, next);
      SameTable(c, t, x, y, i, m);
      WalkComes(c, t, y, i, m);
      WalkComes(c, u, y, i - 1, m);
      FindsNothing(c, t, x, i, y, m, next);
    } else {
      WalkElsewhere(c, t, u, x, i, y, t.levels - 1, m, next);
    }
  }

  predicate NewEntry(c: Config, t: Tree, x: nat, i: nat, y: nat, j: nat) { j + 1 == i && Agree(c, t, x, y, i) }

  lemma LinkedRead(c: Config, t: Tree, x: nat, i: nat, y: nat, j: nat, m: Store, next: nat)
    requires MayLink(c, t, x, i, m, next) && Comes(c, LinkedTree(c, t, x, i, m, next), y, j, m)
    ensures var k := ReadAt(c, LinkedTree(c, t, x, i, m, next), y, j, m);
            if NewEntry(c, t, x, i, y, j) then InPage(k, next) && k == EntryAddr(c, y, j, next * PAGE_SIZE)
            else Comes(c, t, y, j, m) && k == ReadAt(c, t, y, j, m) && k < next * PAGE_SIZE
  {
    LinkTables(c, t, x, i, y, j, m, next);
    assert ReadBelow(c, t, y, j, m, next);
    EntryInPage(c, y, j, next);
    hide LinkedTree, EntryIn, Pow2, TreeShaped, Allocated, FreeIsClean, TableAt, Agree, Room, EntryAddr, Buildable;
  }

  lemma SameIndex(c: Config, t: Tree, x: nat, y: nat, i: nat, a: nat)
    requires EntryAddr(c, x, i, a) == EntryAddr(c, y, i, a)
    ensures DeviceIndex(c.caps.msiFlat, i, x) == DeviceIndex(c.caps.msiFlat, i, y)
  {
    hide DeviceIndex;
  }

  lemma LinkReadsApart(c: Config, t: Tree, x: nat, i: nat, y: nat, j: nat, z: nat, k: nat, m: Store, next: nat)
    requires MayLink(c, t, x, i, m, next)
    ensures ReadApart(c, LinkedTree(c, t, x, i, m, next), y, j, z, k, m)
  {
    var u := LinkedTree(c, t, x, i, m, next);
    if Comes(c, u, y, j, m) && Comes(c, u, z, k, m) && ReadAt(c, u, y, j, m) == ReadAt(c, u, z, k, m) {
      LinkedRead(c, t, x, i, y, j, m, next);
      LinkedRead(c, t, x, i, z, k, m, next);
      assert ReadApart(c, t, y, j, z, k, m);
      if NewEntry(c, t, x, i, y, j) { SameIndex(c, t, y, z, j, next * PAGE_SIZE); }
      hide MayLink, EntryIn, Pow2, TableAt, DeviceIndex, EntryAddr;
    }
  }

  /** What could be built on still can. */
  lemma LinkUsable(c: Config, t: Tree, x: nat, i: nat, y: nat, j: nat, m: Store, next: nat)
    requires MayLink(c, t, x, i, m, next) && j < t.levels && Usable(c, t, y, j, m)
    ensures Usable(c, LinkedTree(c, t, x, i, m, next), y, j, m)
  {
    var u := LinkedTree(c, t, x, i, m, next);
    LinkEdits(c, t, x, i, m, next);
    LinkTables(c, t, x, i, y, j, m, next);
    if Comes(c, u, y, j, m) {
      LinkedRead(c, t, x, i, y, j, m, next);
      assert ReadApart(c, t, x, i, y, j, m);
      if NewEntry(c, t, x, i, y, j) { CleanAt(m, next, ReadAt(c, u, y, j, m)); }
      hide LinkedTree, EntryIn, Pow2, Pointer, TreeShaped, Allocated, TableAt, Linked, EntryAddr, DeviceIndex, Buildable;
    }
  }

  /** Every id that could be added still can. */
  ghost predicate StillBuildable(c: Config, t: Tree, u: Tree, m: Store) {
    forall y | Buildable(c, t, y, m) :: Buildable(c, u, y, m)
  }

  lemma LinkKeepsTree(c: Config, t: Tree, x: nat, i: nat, m: Store, next: nat)
    requires MayLink(c, t, x, i, m, next)
    ensures var u := LinkedTree(c, t, x, i, m, next);
            TreeShaped(c, u, m) && Allocated(c, u, m, next + 1) && FreeIsClean(m, next + 1) && StillBuildable(c, t, u, m)
  {
    var u, rest := LinkedTree(c, t, x, i, m, next), next + 1;
    forall y, j, z, k ensures ReadApart(c, u, y, j, z, k, m) { LinkReadsApart(c, t, x, i, y, j, z, k, m, next); }
    forall y, j ensures ReadBelow(c, u, y, j, m, rest) {
      if Comes(c, u, y, j, m) { LinkedRead(c, t, x, i, y, j, m, next); }
    }
    forall y | Buildable(c, t, y, m) ensures Buildable(c, u, y, m) {
      forall j | 0 <= j < u.levels ensures Usable(c, u, y, j, m) {
        assert Usable(c, t, y, j, m);
        LinkUsable(c, t, x, i, y, j, m, next);
      }
    }
  }

  // ---------------------------------------------------------------- writing the context

  /** What locating a device finds at its record. */
  function OutcomeOf(c: Config, rec: DeviceRecord): Located<DeviceContext> {
    if !rec.V then Failed(258) else if Misconfigured(c, rec.dc) then Failed(259) else Found(rec.dc)
  }

  ghost predicate MayWrite(c: Config, t: Tree, x: nat, m: Store, next: nat) {
    && ValidTree(t) && Comes(c, t, x, 0, m) && TreeShaped(c, t, m) && Allocated(c, t, m, next) && Buildable(c, t, x, m)
  }

  function Written(c: Config, t: Tree, x: nat, rec: DeviceRecord, m: Store): Tree
    requires Comes(c, t, x, 0, m)
  {
    t.(dcs := t.dcs[ReadAt(c, t, x, 0, m) := rec])
  }

  lemma {:induction false} WrittenTables(c: Config, t: Tree, x: nat, rec: DeviceRecord, y: nat, j: nat, m: Store)
    requires Comes(c, t, x, 0, m) && j < t.levels
    ensures TableAt(c, Written(c, t, x, rec, m), y, j, m) == TableAt(c, t, y, j, m)
    decreases t.levels - j
  {
    hide Pointer, EntryIn, Pow2, EntryAddr;
    if j < t.levels - 1 { WrittenTables(c, t, x, rec, y, j + 1, m); }
  }

  lemma WrittenKeepsTree(c: Config, t: Tree, x: nat, rec: DeviceRecord, m: Store, next: nat)
    requires MayWrite(c, t, x, m, next)
    ensures var u := Written(c, t, x, rec, m); TreeShaped(c, u, m) && Allocated(c, u, m, next) && StillBuildable(c, t, u, m)
  {
    var u := Written(c, t, x, rec, m);
    forall y, j: nat | j < t.levels ensures TableAt(c, u, y, j, m) == TableAt(c, t, y, j, m) { WrittenTables(c, t, x, rec, y, j, m); }
    hide TableAt, EntryAddr, Agree;
    forall y, j, z, k ensures ReadApart(c, u, y, j, z, k, m) {
      AgreeIgnores(c, t, x, rec, m, y, z, j);
      assert ReadApart(c, t, y, j, z, k, m);
    }
    forall y, j ensures ReadBelow(c, u, y, j, m, next) { assert ReadBelow(c, t, y, j, m, next); }
    forall y | Buildable(c, t, y, m) ensures Buildable(c, u, y, m) {
      forall j | 0 <= j < u.levels ensures Usable(c, u, y, j, m) { assert Usable(c, t, y, j, m); }
    }
  }

  lemma AgreeIgnores(c: Config, t: Tree, x: nat, rec: DeviceRecord, m: Store, y: nat, z: nat, i: nat)
    requires Comes(c, t, x, 0, m)
    ensures Agree(c, Written(c, t, x, rec, m), y, z, i) == Agree(c, t, y, z, i)
  {
  }

  lemma WrittenWalks(c: Config, t: Tree, x: nat, rec: DeviceRecord, y: nat, m: Store, next: nat)
    requires MayWrite(c, t, x, m, next)
    ensures LocateDevice(c, Written(c, t, x, rec, m), y, m) == if Agree(c, t, x, y, 0) then OutcomeOf(c, rec) else LocateDevice(c, t, y, m)
  {
    var u := Written(c, t, x, rec, m);
    assert ReadBelow(c, t, x, 0, m, next);
    if Agree(c, t, x, y, 0) {
      SameTable(c, t, x, y, 0, m);
      WrittenTables(c, t, x, rec, y, 0, m);
      WalkComes(c, u, y, 0, m);
      assert Usable(c, t, x, 0, m);
      assert EntryAddr(c, y, 0, TableAt(c, t, x, 0, m).value) == ReadAt(c, t, x, 0, m);
      hide Misconfigured, Pow2, TableAt, DeviceIndex, EntryIn, TreeShaped, Allocated, LocateDevice, Buildable;
    } else {
      assert Edited(c, t, u, x, 0, m, next);
      WalkElsewhere(c, t, u, x, 0, y, t.levels - 1, m, next);
    }
  }

  // ---------------------------------------------------------------- building is a map update

  /** Just the ids that agree with `x` locate the new context, the others what they located, and the
      directory is ready to be built on again. */
  ghost predicate Inserted(c: Config, t: Tree, x: nat, rec: DeviceRecord, m: Store, b: Built)
    requires ValidTree(t)
  {
    && b.addr.Some? && ValidTree(b.tree) && b.tree.levels == t.levels
    && TreeShaped(c, b.tree, m) && Allocated(c, b.tree, m, b.next) && FreeIsClean(m, b.next) && StillBuildable(c, t, b.tree, m)
    && forall y :: LocateDevice(c, b.tree, y, m) == if Agree(c, t, x, y, 0) then OutcomeOf(c, rec) else LocateDevice(c, t, y, m)
  }

  ghost predicate MayBuild(c: Config, t: Tree, x: nat, m: Store, next: nat) {
    && ValidTree(t) && TreeShaped(c, t, m) && Allocated(c, t, m, next) && FreeIsClean(m, next) && Buildable(c, t, x, m)
  }

  lemma WriteStep(c: Config, t: Tree, x: nat, rec: DeviceRecord, m: Store, next: nat)
    requires MayBuild(c, t, x, m, next) && Comes(c, t, x, 0, m)
    ensures var b := BuildFrom(c, t, x, 0, TableAt(c, t, x, 0, m).value, rec, m, next); Inserted(c, t, x, rec, m, b) && b.next == next
  {
    WrittenKeepsTree(c, t, x, rec, m, next);
    assert Usable(c, t, x, 0, m);
    forall y ensures LocateDevice(c, Written(c, t, x, rec, m), y, m) ==
                     if Agree(c, t, x, y, 0) then OutcomeOf(c, rec) else LocateDevice(c, t, y, m) {
      WrittenWalks(c, t, x, rec, y, m, next);
    }
    hide LocateDevice, TreeShaped, Allocated, TableAt, EntryAddr, Pow2, Buildable, OutcomeOf;
  }

  lemma FollowStep(c: Config, t: Tree, x: nat, i: nat, rec: DeviceRecord, m: Store, next: nat)
    requires Comes(c, t, x, i, m) && 0 < i && Usable(c, t, x, i, m) && EntryIn(t.ddtes, ReadAt(c, t, x, i, m)).V
    ensures Comes(c, t, x, i - 1, m)
    ensures BuildFrom(c, t, x, i, TableAt(c, t, x, i, m).value, rec, m, next) ==
            BuildFrom(c, t, x, i - 1, TableAt(c, t, x, i - 1, m).value, rec, m, next)
  {
    hide Pow2, EntryAddr, EntryIn;
  }

  lemma LinkStep(c: Config, t: Tree, x: nat, i: nat, rec: DeviceRecord, m: Store, next: nat)
    requires MayLink(c, t, x, i, m, next) && Usable(c, t, x, i, m)
    ensures BuildFrom(c, t, x, i, TableAt(c, t, x, i, m).value, rec, m, next) ==
            BuildFrom(c, LinkedTree(c, t, x, i, m, next), x, i - 1, next * PAGE_SIZE, rec, m, next + 1)
  {
    hide Pow2, TreeShaped, Allocated, FreeIsClean, Buildable, TableAt, EntryAddr, EntryIn;
  }

  lemma LinkReady(c: Config, t: Tree, x: nat, i: nat, m: Store, next: nat)
    requires MayBuild(c, t, x, m, next) && Comes(c, t, x, i, m) && 0 < i && Room(c, next, i)
    requires Usable(c, t, x, i, m) && !EntryIn(t.ddtes, ReadAt(c, t, x, i, m)).V
    ensures MayLink(c, t, x, i, m, next) && Room(c, next + 1, i - 1)
    ensures var u := LinkedTree(c, t, x, i, m, next);
            && MayBuild(c, u, x, m, next + 1) && u.levels == t.levels && StillBuildable(c, t, u, m)
            && TableAt(c, u, x, i - 1, m) == Some(next * PAGE_SIZE)
            && forall y :: LocateDevice(c, u, y, m) == LocateDevice(c, t, y, m)
  {
    hide TableAt, Pow2, EntryIn, TreeShaped, Allocated, FreeIsClean, Buildable, EntryAddr, LocateDevice;
    LinkKeepsTree(c, t, x, i, m, next);
    LinkReaches(c, t, x, i, x, m, next);
    var u := LinkedTree(c, t, x, i, m, next);
    forall y ensures LocateDevice(c, u, y, m) == LocateDevice(c, t, y, m) { LinkKeepsWalks(c, t, x, i, y, m, next); }
  }

  lemma InsertedBefore(c: Config, t: Tree, u: Tree, x: nat, rec: DeviceRecord, m: Store, b: Built)
    requires ValidTree(t) && ValidTree(u) && u.levels == t.levels && Inserted(c, u, x, rec, m, b)
    requires StillBuildable(c, t, u, m) && forall y :: LocateDevice(c, u, y, m) == LocateDevice(c, t, y, m)
    ensures Inserted(c, t, x, rec, m, b)
  {
    assert forall y :: Agree(c, u, x, y, 0) == Agree(c, t, x, y, 0);
  }

  lemma {:induction false} BuildInserts(c: Config, t: Tree, x: nat, i: nat, rec: DeviceRecord, m: Store, next: nat)
    requires MayBuild(c, t, x, m, next) && Comes(c, t, x, i, m) && Room(c, next, i)
    ensures var b := BuildFrom(c, t, x, i, TableAt(c, t, x, i, m).value, rec, m, next);
            Inserted(c, t, x, rec, m, b) && next <= b.next <= next + i
    decreases i
  {
    hide BuildFrom, TableAt, Pow2, EntryIn, TreeShaped, Allocated, FreeIsClean, LinkedTree, Inserted, LocateDevice, EntryAddr;
    assert Usable(c, t, x, i, m);
    if i == 0 {
      WriteStep(c, t, x, rec, m, next);
    } else if EntryIn(t.ddtes, ReadAt(c, t, x, i, m)).V {
      FollowStep(c, t, x, i, rec, m, next);
      BuildInserts(c, t, x, i - 1, rec, m, next);
    } else {
      LinkReady(c, t, x, i, m, next);
      LinkStep(c, t, x, i, rec, m, next);
      var u := LinkedTree(c, t, x, i, m, next);
      BuildInserts(c, u, x, i - 1, rec, m, next + 1);
      InsertedBefore(c, t, u, x, rec, m, BuildFrom(c, u, x, i - 1, next * PAGE_SIZE, rec, m, next + 1));
    }
  }

  /** The index split is injective: ids that fit the directory are told apart by their indices. */
  lemma IndicesTellApart(c: Config, t: Tree, x: nat, y: nat)
    requires ValidTree(t) && IdFits(c, t, x) && IdFits(c, t, y)
    ensures Agree(c, t, x, y, 0) <==> x == y
  {
    if Agree(c, t, x, y, 0) {
      var f, k := c.caps.msiFlat, if c.caps.msiFlat then 6 else 7;
      assert DeviceIndex(f, 0, x) == DeviceIndex(f, 0, y);
      assert t.levels > 1 ==> DeviceIndex(f, 1, x) == DeviceIndex(f, 1, y);
      assert t.levels > 2 ==> DeviceIndex(f, 2, x) == DeviceIndex(f, 2, y);
      LowOfShift0(x, k);
      LowOfShift0(y, k);
      hide Pow2, Low, Shr, Agree;
      match t.levels {
        case 1 => OneField(x, y, 0, k);
        case 2 => OneField(x, y, k, 9); SplicesAlike(x, y, 0, k);
        case _ => OneField(x, y, k + 9, 15 - k); SplicesAlike(x, y, k, 9); SplicesAlike(x, y, 0, k);
      }
      assert Shr(x, 0) == x && Shr(y, 0) == y by { ShiftByNone(x); ShiftByNone(y); }
    }
  }

  lemma ShiftByNone(x: nat)
    ensures Shr(x, 0) == x
  {
  }

  /** Numbers whose top field of `n` bits at `k` is the same agree from bit `k` up. */
  lemma OneField(x: nat, y: nat, k: nat, n: nat)
    requires x < Pow2(k + n) && y < Pow2(k + n) && Low(Shr(x, k), n) == Low(Shr(y, k), n)
    ensures Shr(x, k) == Shr(y, k)
  {
    Joined(x, k, n);
    Joined(y, k, n);
    ShrZero(Shr(x, k), n);
    ShrZero(Shr(y, k), n);
  }

  /** Numbers that agree above a field and in it agree from its lowest bit up. */
  lemma SplicesAlike(x: nat, y: nat, k: nat, n: nat)
    requires Shr(x, k + n) == Shr(y, k + n) && Low(Shr(x, k), n) == Low(Shr(y, k), n)
    ensures Shr(x, k) == Shr(y, k)
  {
    ShrShr(x, k, n);
    ShrShr(y, k, n);
    SpliceUnique(Shr(x, k), Shr(y, k), Shr(y, k), n);
    SpliceUnique(Shr(y, k), Shr(y, k), Shr(y, k), n);
  }

  /** The bits above `k` of a number of `k + n` bits are `n` bits. */
  lemma Joined(x: nat, k: nat, n: nat)
    requires x < Pow2(k + n)
    ensures Shr(x, k) < Pow2(n)
  {
    ShrShr(x, k, n);
    ShrZero(x, k + n);
    ShrZero(Shr(x, k), n);
  }

  lemma LowOfShift0(x: nat, k: nat)
    requires k > 0
    ensures GetBits(k - 1, 0, x) == Low(x, k)
  {
    hide Low;
    assert Shr(x, 0) == x && k - 1 - 0 + 1 == k;
  }

  /** The round trip: after `add_dev_context` the device locates the very context written, if it is
      valid and passes the configuration checks, and every other device what it located before. */
  lemma BuildThenLocate(c: Config, t: Tree, id: nat, rec: DeviceRecord, m: Store, next: nat)
    requires MayBuild(c, t, id, m, next) && IdFits(c, t, id) && Room(c, next, t.levels - 1)
    ensures var b := Build(c, t, id, rec, m, next);
            && b.addr.Some? && ValidTree(b.tree) && next <= b.next < next + t.levels
            && TreeShaped(c, b.tree, m) && Allocated(c, b.tree, m, b.next) && FreeIsClean(m, b.next)
            && b.tree.levels == t.levels && (forall y | Buildable(c, t, y, m) :: MayBuild(c, b.tree, y, m, b.next))
            && LocateDevice(c, b.tree, id, m) == OutcomeOf(c, rec)
            && (rec.V && !Misconfigured(c, rec.dc) ==> LocateDevice(c, b.tree, id, m) == Found(rec.dc))
            && (forall y: nat | IdFits(c, t, y) && y != id :: LocateDevice(c, b.tree, y, m) == LocateDevice(c, t, y, m))
  {
    BuildInserts(c, t, id, t.levels - 1, rec, m, next);
    hide BuildFrom, TreeShaped, Allocated, FreeIsClean, LocateDevice, Misconfigured, Buildable, DeviceIndex, Pow2, Agree, IdFits;
    IndicesTellApart(c, t, id, id);
    var b := Build(c, t, id, rec, m, next);
    forall y: nat | IdFits(c, t, y) && y != id ensures LocateDevice(c, b.tree, y, m) == LocateDevice(c, t, y, m) {
      IndicesTellApart(c, t, id, y);
    }
  }

  /** An empty root page is a directory to start from. */
  lemma EmptyRootIsTree(c: Config, t: Tree, m: Store, next: nat)
    requires ValidTree(t) && t.root < next
    requires forall k: nat | InPage(k, t.root) :: k !in t.ddtes
    ensures TreeShaped(c, t, m) && Allocated(c, t, m, next)
  {
    forall y, j: nat | Comes(c, t, y, j, m) ensures j == t.levels - 1 {
      if j < t.levels - 1 {
        EntryInPage(c, y, t.levels - 1, t.root);
        NoTableBelow(c, t, y, t.levels - 1, j, m);
      }
    }
    forall x, i, y, j ensures ReadApart(c, t, x, i, y, j, m) {
      if Comes(c, t, x, i, m) && Comes(c, t, y, j, m) && ReadAt(c, t, x, i, m) == ReadAt(c, t, y, j, m) {
        SameIndex(c, t, x, y, i, t.root * PAGE_SIZE);
      }
    }
    forall x, i ensures ReadBelow(c, t, x, i, m, next) {
      if Comes(c, t, x, i, m) { EntryInPage(c, x, i, t.root); }
    }
  }

  /** A root page with nothing in it and no faults injected, from which on memory is clean. */
  ghost predicate EmptyRoot(c: Config, t: Tree, m: Store) {
    && ValidTree(t) && FreeIsClean(m, t.root) && Room(c, t.root, 1)
    && forall k: nat | InPage(k, t.root) :: k !in t.ddtes && k !in t.dcs
  }

  /** To an empty root any device can be added, and none is located there. */
  lemma EmptyRootBuildable(c: Config, t: Tree, m: Store, y: nat)
    requires EmptyRoot(c, t, m)
    ensures Buildable(c, t, y, m) && LocateDevice(c, t, y, m) == Failed(258)
  {
    var top := t.levels - 1;
    EntryInPage(c, y, top, t.root);
    CleanAt(m, t.root, EntryAddr(c, y, top, t.root * PAGE_SIZE));
    hide DeviceIndex, Pow2, FreeIsClean;
    forall i | 0 <= i < t.levels ensures Usable(c, t, y, i, m) {
      if i < top { NoTableBelow(c, t, y, top, i, m); }
    }
  }

  // ---------------------------------------------------------------- many contexts

  datatype Addition = Addition(id: nat, rec: DeviceRecord)

  lemma {:induction false} BuildKeepsLevels(c: Config, t: Tree, id: nat, i: nat, a: nat, rec: DeviceRecord, m: Store, next: nat)
    ensures BuildFrom(c, t, id, i, a, rec, m, next).tree.levels == t.levels
    decreases i
  {
    hide EntryAddr, EntryIn, LoadStatus, StoreStatus;
    if i > 0 {
      var addr := EntryAddr(c, id, i, a);
      var e, t1 := EntryIn(t.ddtes, addr), ClearPage(t, next);
      if e.V { BuildKeepsLevels(c, t, id, i - 1, e.ppn * PAGE_SIZE, rec, m, next); }
      else {
        BuildKeepsLevels(c, t1.(ddtes := t1.ddtes[addr := Linked(e, next)]), id, i - 1, Linked(e, next).ppn * PAGE_SIZE, rec, m, next + 1);
      }
    }
  }

  /** Calls of `add_dev_context` one after the other, if none fails */
  function BuildAll(c: Config, t: Tree, adds: seq<Addition>, m: Store, next: nat): Option<(Tree, nat)>
    requires ValidTree(t)
    decreases |adds|
  {
    if adds == [] then Some((t, next))
    else
      var b := Build(c, t, adds[0].id, adds[0].rec, m, next);
      BuildKeepsLevels(c, t, adds[0].id, t.levels - 1, t.root * PAGE_SIZE, adds[0].rec, m, next);
      if b.addr.None? then None else BuildAll(c, b.tree, adds[1..], m, b.next)
  }

  /** The record added last for the device. */
  function LastFor(adds: seq<Addition>, y: nat): Option<DeviceRecord> {
    if adds == [] then None
    else
      var later := LastFor(adds[1..], y);
      if later.Some? then later else if adds[0].id == y then Some(adds[0].rec) else None
  }

  /** Everything that adding the contexts asks of the directory. */
  ghost predicate MayBuildAll(c: Config, t: Tree, adds: seq<Addition>, m: Store, next: nat) {
    && ValidTree(t) && TreeShaped(c, t, m) && Allocated(c, t, m, next) && FreeIsClean(m, next)
    && Room(c, next, |adds| * (t.levels - 1))
    && forall k | 0 <= k < |adds| :: IdFits(c, t, adds[k].id) && Buildable(c, t, adds[k].id, m)
  }

  lemma BuildOne(c: Config, t: Tree, adds: seq<Addition>, m: Store, next: nat)
    requires adds != [] && MayBuildAll(c, t, adds, m, next)
    ensures var b := Build(c, t, adds[0].id, adds[0].rec, m, next);
            && b.addr.Some? && b.tree.levels == t.levels && MayBuildAll(c, b.tree, adds[1..], m, b.next)
            && LocateDevice(c, b.tree, adds[0].id, m) == OutcomeOf(c, adds[0].rec)
            && (forall y: nat | IdFits(c, t, y) && y != adds[0].id :: LocateDevice(c, b.tree, y, m) == LocateDevice(c, t, y, m))
  {
    hide Build, TreeShaped, Allocated, FreeIsClean, Buildable, LocateDevice, OutcomeOf, Pow2;
    var n, k := |adds|, t.levels - 1;
    assert n * k == (n - 1) * k + k;
    BuildThenLocate(c, t, adds[0].id, adds[0].rec, m, next);
  }

  /** The directory that a series of additions leaves is a finite map: each device locates what was last
      added for it, the others what they located before. */
  lemma {:induction false} BuildAllIsMap(c: Config, t: Tree, adds: seq<Addition>, m: Store, next: nat, y: nat)
    requires ValidTree(t) && MayBuildAll(c, t, adds, m, next) && IdFits(c, t, y)
    ensures var r := BuildAll(c, t, adds, m, next);
            && r.Some? && ValidTree(r.value.0)
            && LocateDevice(c, r.value.0, y, m) ==
                 match LastFor(adds, y) case Some(rec) => OutcomeOf(c, rec) case None => LocateDevice(c, t, y, m)
    decreases |adds|
  {
    hide Build, MayBuildAll, LocateDevice, OutcomeOf, Pow2;
    if adds != [] {
      var b := Build(c, t, adds[0].id, adds[0].rec, m, next);
      BuildOne(c, t, adds, m, next);
      BuildAllIsMap(c, b.tree, adds[1..], m, b.next, y);
    }
  }

  /** From an empty root: a device is located exactly if it was added, with its last context. */
  lemma BuiltFromEmpty(c: Config, t: Tree, adds: seq<Addition>, m: Store, y: nat)
    requires EmptyRoot(c, t, m) && Room(c, t.root + 1, |adds| * (t.levels - 1))
    requires IdFits(c, t, y) && forall k | 0 <= k < |adds| :: IdFits(c, t, adds[k].id)
    ensures var r := BuildAll(c, t, adds, m, t.root + 1);
            && r.Some? && ValidTree(r.value.0)
            && LocateDevice(c, r.value.0, y, m) == match LastFor(adds, y) case Some(rec) => OutcomeOf(c, rec) case None => Failed(258)
  {
    hide BuildAll, TreeShaped, Allocated, Buildable, LocateDevice, OutcomeOf, Pow2;
    EmptyRootIsTree(c, t, m, t.root + 1);
    forall k | 0 <= k < |adds| ensures Buildable(c, t, adds[k].id, m) { EmptyRootBuildable(c, t, m, adds[k].id); }
    EmptyRootBuildable(c, t, m, y);
    BuildAllIsMap(c, t, adds, m, t.root + 1, y);
  }
}
