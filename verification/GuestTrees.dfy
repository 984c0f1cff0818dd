/** Tables in guest memory, every page of them reached through a second stage: where walks come, and what
    linking a fresh page or writing an entry changes. Paths are the byte offsets of the entries read. */
module GuestTrees {
  import opened Common
  import opened PageTables
  import opened Superpages

  /** What a walk makes of the word at an address: nothing yet, a pointer to a guest page, or its end. */
  datatype Cell = Empty | Pointer(page: nat) | Other

  /** The tables as walks and builders see them: the guest page of the root, where the second stage puts a
      guest address, what is in memory, which memory is accessible, and which guest pages the builder finds. */
  datatype View = View(levels: nat, root: nat, host: nat -> Option<nat>, cell: nat -> Cell, open: nat -> bool, plain: nat -> bool)

  predicate IsPath(w: View, v: seq<nat>) { |v| == w.levels && forall k | 0 <= k < |v| :: v[k] < PAGE_SIZE }

  /** The guest page of the table that `v` leads to at level `i`. */
  function TableAt(w: View, v: seq<nat>, i: nat): Option<nat>
    requires |v| == w.levels && i < w.levels
    decreases w.levels - i
  {
    if i == w.levels - 1 then Some(w.root)
    else match TableAt(w, v, i + 1)
      case None => None
      case Some(page) =>
        match w.host(page * PAGE_SIZE + v[i + 1])
        case None => None
        case Some(h) => if w.cell(h).Pointer? then Some(w.cell(h).page) else None
  }

  predicate Has(w: View, v: seq<nat>, i: nat) { IsPath(w, v) && i < w.levels && TableAt(w, v, i).Some? }

  /** The guest address of the entry that `v` reads at level `i`. */
  function EntryAt(w: View, v: seq<nat>, i: nat): nat
    requires Has(w, v, i)
  {
    TableAt(w, v, i).value * PAGE_SIZE + v[i]
  }

  predicate Comes(w: View, v: seq<nat>, i: nat) { Has(w, v, i) && w.host(EntryAt(w, v, i)).Some? }

  /** Where in memory it is. */
  function ReadAt(w: View, v: seq<nat>, i: nat): nat
    requires Comes(w, v, i)
  {
    w.host(EntryAt(w, v, i)).value
  }

  /** Two walks read one word only where all their indices so far agree. */
  predicate ReadApart(w: View, v: seq<nat>, i: nat, x: seq<nat>, j: nat) {
    Comes(w, v, i) && Comes(w, x, j) && ReadAt(w, v, i) == ReadAt(w, x, j) ==> i == j && IndicesAgree(v, x, i)
  }

  ghost predicate TreeShaped(w: View) { forall v, i, x, j :: ReadApart(w, v, i, x, j) }

  predicate Below(w: View, v: seq<nat>, i: nat, gnext: nat, next: nat) {
    && (Has(w, v, i) ==> TableAt(w, v, i).value < gnext)
    && (Comes(w, v, i) ==> ReadAt(w, v, i) < next * PAGE_SIZE)
  }

  /** No table lies in a page still free, in guest memory or in memory. */
  ghost predicate Allocated(w: View, gnext: nat, next: nat) { forall v, i :: Below(w, v, i, gnext, next) }

  /** The entry can be used: reached by the builder, accessible and, above the level to build, empty or a pointer. */
  predicate Usable(w: View, v: seq<nat>, j: nat, level: nat) {
    Has(w, v, j) ==>
      && w.plain(TableAt(w, v, j).value) && Comes(w, v, j) && w.open(ReadAt(w, v, j))
      && (j > level ==> w.cell(ReadAt(w, v, j)).Empty? || w.cell(ReadAt(w, v, j)).Pointer?)
  }

  predicate Buildable(w: View, v: seq<nat>, level: nat) { IsPath(w, v) && forall j | level <= j < w.levels :: Usable(w, v, j, level) }

  lemma UsableAt(w: View, v: seq<nat>, i: nat, level: nat)
    requires Buildable(w, v, level) && Has(w, v, i) && level <= i
    ensures Usable(w, v, i, level) && Comes(w, v, i)
    ensures i > level ==> w.cell(ReadAt(w, v, i)).Empty? || w.cell(ReadAt(w, v, i)).Pointer?
  {
    assert Usable(w, v, i, level);
    hide TableAt;
  }

  /** The walk for `v` ends at level `d`. */
  predicate Ends(w: View, v: seq<nat>, d: nat) {
    Has(w, v, d) && (d == 0 || !Comes(w, v, d) || !w.cell(ReadAt(w, v, d)).Pointer?)
  }

  lemma {:induction false} WalkEnds(w: View, v: seq<nat>, i: nat) returns (d: nat)
    requires Has(w, v, i)
    ensures d <= i && Ends(w, v, d)
    decreases i
  {
    if i == 0 || !Comes(w, v, i) || !w.cell(ReadAt(w, v, i)).Pointer? { return i; }
    d := WalkEnds(w, v, i - 1);
  }

  lemma RootTable(w: View, v: seq<nat>)
    requires |v| == w.levels && 0 < w.levels
    ensures TableAt(w, v, w.levels - 1) == Some(w.root)
  {
  }

  lemma NextTable(w: View, v: seq<nat>, i: nat)
    requires Comes(w, v, i) && 0 < i && w.cell(ReadAt(w, v, i)).Pointer?
    ensures Has(w, v, i - 1) && TableAt(w, v, i - 1) == Some(w.cell(ReadAt(w, v, i)).page)
  {
  }

  /** A walk comes to a table from the one above. */
  lemma HasAbove(w: View, v: seq<nat>, i: nat)
    requires Has(w, v, i) && i < w.levels - 1
    ensures Comes(w, v, i + 1) && w.cell(ReadAt(w, v, i + 1)) == Pointer(TableAt(w, v, i).value)
  {
  }

  /** The table at a level depends on the indices above it. */
  lemma {:induction false} SameTable(w: View, v: seq<nat>, x: seq<nat>, i: nat)
    requires IsPath(w, v) && IsPath(w, x) && i < w.levels && IndicesAgree(v, x, i)
    ensures TableAt(w, x, i) == TableAt(w, v, i)
    decreases w.levels - i
  {
    if i < w.levels - 1 { SameTable(w, v, x, i + 1); }
  }

  /** There is no table below the end of a walk. */
  lemma {:induction false} NoTableBelow(w: View, v: seq<nat>, i: nat, j: nat)
    requires IsPath(w, v) && j < i < w.levels && (Comes(w, v, i) ==> !w.cell(ReadAt(w, v, i)).Pointer?)
    ensures TableAt(w, v, j).None?
    decreases i - j
  {
    if j + 1 < i { NoTableBelow(w, v, i, j + 1); }
  }

  // ---------------------------------------------------------------- editing one entry

  predicate CellKept(w: View, u: View, at: nat, x: seq<nat>, j: nat) {
    Comes(w, x, j) && ReadAt(w, x, j) != at ==> u.cell(ReadAt(w, x, j)) == w.cell(ReadAt(w, x, j))
  }

  /** Of all that walks in `w` come to, `u` has another cell only at the address `at`. */
  ghost predicate Edited(w: View, u: View, at: nat, gnext: nat, next: nat) {
    && u.levels == w.levels && u.root == w.root
    && (forall gpa: nat | gpa < gnext * PAGE_SIZE :: u.host(gpa) == w.host(gpa))
    && (forall page: nat | page < gnext :: u.plain(page) == w.plain(page))
    && (forall h: nat | h < next * PAGE_SIZE :: u.open(h) == w.open(h))
    && forall x, j :: CellKept(w, u, at, x, j)
  }

  /** Tables not below the edited entry are where they were. */
  lemma {:induction false} TableElsewhere(w: View, u: View, v: seq<nat>, i: nat, x: seq<nat>, j: nat, gnext: nat, next: nat)
    requires Comes(w, v, i) && Edited(w, u, ReadAt(w, v, i), gnext, next) && TreeShaped(w) && Allocated(w, gnext, next)
    requires IsPath(w, x) && j < w.levels && (j >= i || !IndicesAgree(v, x, i))
    ensures TableAt(u, x, j) == TableAt(w, x, j)
    decreases w.levels - j
  {
    hide IndicesAgree;
    if j < w.levels - 1 {
      TableElsewhere(w, u, v, i, x, j + 1, gnext, next);
      assert Below(w, x, j + 1, gnext, next);
      assert ReadApart(w, v, i, x, j + 1);
      assert CellKept(w, u, ReadAt(w, v, i), x, j + 1);
    }
  }

  /** A walk that is not below the edited entry and does not read it reads what it read. */
  lemma ReadElsewhere(w: View, u: View, v: seq<nat>, i: nat, x: seq<nat>, j: nat, gnext: nat, next: nat)
    requires Comes(w, v, i) && Edited(w, u, ReadAt(w, v, i), gnext, next) && TreeShaped(w) && Allocated(w, gnext, next)
    requires j > i || !IndicesAgree(v, x, i)
    ensures Has(u, x, j) == Has(w, x, j) && Comes(u, x, j) == Comes(w, x, j)
    ensures Has(w, x, j) ==> TableAt(u, x, j) == TableAt(w, x, j)
    ensures Comes(w, x, j) ==> ReadAt(u, x, j) == ReadAt(w, x, j) != ReadAt(w, v, i) && u.cell(ReadAt(w, x, j)) == w.cell(ReadAt(w, x, j))
  {
    if IsPath(w, x) && j < w.levels {
      TableElsewhere(w, u, v, i, x, j, gnext, next);
      assert Below(w, x, j, gnext, next);
      assert ReadApart(w, v, i, x, j);
      assert CellKept(w, u, ReadAt(w, v, i), x, j);
      hide TableAt, IndicesAgree;
    }
  }

  lemma IndexAgrees(v: seq<nat>, x: seq<nat>, i: nat)
    requires IndicesAgree(v, x, i) && i < |v|
    ensures |x| == |v| && v[i] == x[i]
  {
  }

  lemma HostKept(w: View, u: View, at: nat, gnext: nat, next: nat, gpa: nat)
    requires Edited(w, u, at, gnext, next) && gpa < gnext * PAGE_SIZE
    ensures u.host(gpa) == w.host(gpa) && u.levels == w.levels && u.root == w.root
  {
  }

  lemma ReadHere(w: View, u: View, v: seq<nat>, i: nat, x: seq<nat>, gnext: nat, next: nat)
    requires Comes(w, v, i) && Edited(w, u, ReadAt(w, v, i), gnext, next) && TreeShaped(w) && Allocated(w, gnext, next)
    requires IsPath(w, x) && IndicesAgree(v, x, i)
    ensures Comes(w, x, i) && Comes(u, x, i) && TableAt(u, x, i) == TableAt(w, x, i) == TableAt(w, v, i)
    ensures ReadAt(u, x, i) == ReadAt(w, x, i) == ReadAt(w, v, i)
  {
    hide TableAt, TreeShaped, Allocated, Edited, IndicesAgree;
    TableElsewhere(w, u, v, i, x, i, gnext, next);
    SameTable(w, v, x, i);
    IndexAgrees(v, x, i);
    assert EntryAt(w, x, i) == EntryAt(w, v, i);
    EntryInGuest(w, x, i, gnext, next);
    HostKept(w, u, ReadAt(w, v, i), gnext, next, EntryAt(w, x, i));
  }

  lemma EntryInGuest(w: View, x: seq<nat>, i: nat, gnext: nat, next: nat)
    requires Allocated(w, gnext, next) && Has(w, x, i)
    ensures EntryAt(w, x, i) < gnext * PAGE_SIZE
  {
    assert Below(w, x, i, gnext, next);
    hide TableAt;
  }

  // ---------------------------------------------------------------- linking a free page

  /** The empty entry that `v` reads at level `i` now points to guest page `gnext`, which is at page `next`. */
  ghost predicate Links(w: View, u: View, v: seq<nat>, i: nat, gnext: nat, next: nat) {
    && 0 < i && Comes(w, v, i) && w.cell(ReadAt(w, v, i)).Empty? && TreeShaped(w) && Allocated(w, gnext, next)
    && Edited(w, u, ReadAt(w, v, i), gnext, next) && u.cell(ReadAt(w, v, i)) == Pointer(gnext) && u.plain(gnext)
    && (forall gpa: nat | InPage(gpa, gnext) :: u.host(gpa) == Some(next * PAGE_SIZE + (gpa - gnext * PAGE_SIZE)))
    && (forall h: nat | InPage(h, next) :: u.cell(h).Empty? && u.open(h))
  }

  /** So it is if no other word below the free memory changes. */
  lemma LinksIf(w: View, u: View, v: seq<nat>, i: nat, gnext: nat, next: nat)
    requires 0 < i && Comes(w, v, i) && w.cell(ReadAt(w, v, i)).Empty? && TreeShaped(w) && Allocated(w, gnext, next)
    requires u.levels == w.levels && u.root == w.root && u.cell(ReadAt(w, v, i)) == Pointer(gnext) && u.plain(gnext)
    requires forall gpa: nat | gpa < gnext * PAGE_SIZE :: u.host(gpa) == w.host(gpa)
    requires forall page: nat | page < gnext :: u.plain(page) == w.plain(page)
    requires forall h: nat | h < next * PAGE_SIZE :: u.open(h) == w.open(h) && (h != ReadAt(w, v, i) ==> u.cell(h) == w.cell(h))
    requires forall gpa: nat | InPage(gpa, gnext) :: u.host(gpa) == Some(next * PAGE_SIZE + (gpa - gnext * PAGE_SIZE))
    requires forall h: nat | InPage(h, next) :: u.cell(h).Empty? && u.open(h)
    ensures Links(w, u, v, i, gnext, next)
  {
    forall x, j ensures CellKept(w, u, ReadAt(w, v, i), x, j) { assert Below(w, x, j, gnext, next); }
    hide TableAt, TreeShaped, Allocated;
  }

  /** Walks agreeing with `v` down to level `i` come to the new page at level `i - 1` and no further. */
  lemma LinkReaches(w: View, u: View, v: seq<nat>, i: nat, x: seq<nat>, gnext: nat, next: nat)
    requires Links(w, u, v, i, gnext, next) && IsPath(w, x) && IndicesAgree(v, x, i)
    ensures Comes(u, x, i - 1) && TableAt(u, x, i - 1) == Some(gnext) && ReadAt(u, x, i - 1) == next * PAGE_SIZE + x[i - 1]
    ensures u.cell(ReadAt(u, x, i - 1)).Empty?
    ensures Ends(w, x, i) && Ends(u, x, i - 1)
  {
    ReadHere(w, u, v, i, x, gnext, next);
    hide TableAt, IndicesAgree, Edited, Allocated, TreeShaped;
    NextTable(u, x, i);
    assert InPage(gnext * PAGE_SIZE + x[i - 1], gnext) && InPage(next * PAGE_SIZE + x[i - 1], next);
  }

  predicate NewEntry(v: seq<nat>, i: nat, x: seq<nat>, j: nat) { j + 1 == i && IndicesAgree(v, x, i) }

  lemma LinkedRead(w: View, u: View, v: seq<nat>, i: nat, x: seq<nat>, j: nat, gnext: nat, next: nat)
    requires Links(w, u, v, i, gnext, next) && Has(u, x, j)
    ensures if NewEntry(v, i, x, j) then Comes(u, x, j) && TableAt(u, x, j) == Some(gnext) && ReadAt(u, x, j) == next * PAGE_SIZE + x[j]
            else Has(w, x, j) && TableAt(u, x, j) == TableAt(w, x, j) && Comes(u, x, j) == Comes(w, x, j) &&
                 (Comes(w, x, j) ==> ReadAt(u, x, j) == ReadAt(w, x, j) < next * PAGE_SIZE)
  {
    hide TableAt, IndicesAgree;
    assert Below(w, x, j, gnext, next);
    if j > i || !IndicesAgree(v, x, i) {
      ReadElsewhere(w, u, v, i, x, j, gnext, next);
    } else if j == i {
      ReadHere(w, u, v, i, x, gnext, next);
    } else {
      LinkReaches(w, u, v, i, x, gnext, next);
      if j < i - 1 { NoTableBelow(u, x, i - 1, j); }
    }
  }

  lemma LinkReadsApart(w: View, u: View, v: seq<nat>, i: nat, x: seq<nat>, j: nat, y: seq<nat>, k: nat, gnext: nat, next: nat)
    requires Links(w, u, v, i, gnext, next)
    ensures ReadApart(u, x, j, y, k)
  {
    if Comes(u, x, j) && Comes(u, y, k) && ReadAt(u, x, j) == ReadAt(u, y, k) {
      LinkedRead(w, u, v, i, x, j, gnext, next);
      LinkedRead(w, u, v, i, y, k, gnext, next);
      assert ReadApart(w, x, j, y, k);
      hide TableAt, Links;
    }
  }

  lemma LinkUsable(w: View, u: View, v: seq<nat>, i: nat, x: seq<nat>, j: nat, level: nat, gnext: nat, next: nat)
    requires Links(w, u, v, i, gnext, next) && Usable(w, x, j, level)
    ensures Usable(u, x, j, level)
  {
    if Has(u, x, j) {
      LinkedRead(w, u, v, i, x, j, gnext, next);
      assert Below(w, x, j, gnext, next);
      if NewEntry(v, i, x, j) { LinkReaches(w, u, v, i, x, gnext, next); }
      else { assert CellKept(w, u, ReadAt(w, v, i), x, j); }
      hide TableAt, IndicesAgree;
    }
  }

  /** What could be built still can. */
  lemma LinkBuildable(w: View, u: View, v: seq<nat>, i: nat, x: seq<nat>, level: nat, gnext: nat, next: nat)
    requires Links(w, u, v, i, gnext, next) && Buildable(w, x, level)
    ensures Buildable(u, x, level)
  {
    forall j | level <= j < u.levels ensures Usable(u, x, j, level) {
      assert Usable(w, x, j, level);
      LinkUsable(w, u, v, i, x, j, level, gnext, next);
    }
  }

  lemma LinkKeepsTree(w: View, u: View, v: seq<nat>, i: nat, gnext: nat, next: nat, rest: nat)
    requires Links(w, u, v, i, gnext, next) && next < rest
    ensures TreeShaped(u) && Allocated(u, gnext + 1, rest)
  {
    forall x, j, y, k ensures ReadApart(u, x, j, y, k) { LinkReadsApart(w, u, v, i, x, j, y, k, gnext, next); }
    var above := gnext + 1;
    forall x, j ensures Below(u, x, j, above, rest) {
      if Has(u, x, j) {
        LinkedRead(w, u, v, i, x, j, gnext, next);
        assert Below(w, x, j, gnext, next);
        hide TableAt, Links;
      }
    }
  }

  // ---------------------------------------------------------------- writing the last entry

  /** The entry that `v` reads at level `k` ends walks in `u`. */
  ghost predicate Writes(w: View, u: View, v: seq<nat>, k: nat, gnext: nat, next: nat) {
    && Comes(w, v, k) && TreeShaped(w) && Allocated(w, gnext, next)
    && Edited(w, u, ReadAt(w, v, k), gnext, next) && (0 < k ==> u.cell(ReadAt(w, v, k)).Other?)
  }

  lemma WriteEnds(w: View, u: View, v: seq<nat>, k: nat, x: seq<nat>, gnext: nat, next: nat)
    requires Writes(w, u, v, k, gnext, next) && IsPath(w, x) && IndicesAgree(v, x, k)
    ensures Comes(u, x, k) && TableAt(u, x, k) == TableAt(w, v, k) && ReadAt(u, x, k) == ReadAt(w, v, k) && Ends(u, x, k)
  {
    ReadHere(w, u, v, k, x, gnext, next);
  }

  predicate CutsOff(v: seq<nat>, k: nat, x: seq<nat>, level: nat) { level < k && IndicesAgree(v, x, k) }

  lemma WrittenRead(w: View, u: View, v: seq<nat>, k: nat, x: seq<nat>, j: nat, gnext: nat, next: nat)
    requires Writes(w, u, v, k, gnext, next) && Has(u, x, j)
    ensures !CutsOff(v, k, x, j) && Has(w, x, j) && TableAt(u, x, j) == TableAt(w, x, j) && Comes(u, x, j) == Comes(w, x, j)
    ensures Comes(w, x, j) ==> ReadAt(u, x, j) == ReadAt(w, x, j)
  {
    hide TableAt, IndicesAgree;
    if j > k || !IndicesAgree(v, x, k) {
      ReadElsewhere(w, u, v, k, x, j, gnext, next);
    } else {
      ReadHere(w, u, v, k, x, gnext, next);
      if j < k { NoTableBelow(u, x, k, j); }
    }
  }

  lemma WriteKeepsTree(w: View, u: View, v: seq<nat>, k: nat, gnext: nat, next: nat)
    requires Writes(w, u, v, k, gnext, next)
    ensures TreeShaped(u) && Allocated(u, gnext, next)
  {
    forall x, j, y, l ensures ReadApart(u, x, j, y, l) {
      if Comes(u, x, j) && Comes(u, y, l) {
        WrittenRead(w, u, v, k, x, j, gnext, next);
        WrittenRead(w, u, v, k, y, l, gnext, next);
        assert ReadApart(w, x, j, y, l);
      }
    }
    forall x, j ensures Below(u, x, j, gnext, next) {
      if Has(u, x, j) {
        WrittenRead(w, u, v, k, x, j, gnext, next);
        assert Below(w, x, j, gnext, next);
      }
    }
  }

  /** What could be built still can, but below the entry written. */
  lemma WriteBuildable(w: View, u: View, v: seq<nat>, k: nat, x: seq<nat>, level: nat, gnext: nat, next: nat)
    requires Writes(w, u, v, k, gnext, next) && Buildable(w, x, level) && !CutsOff(v, k, x, level)
    ensures Buildable(u, x, level)
  {
    forall j | level <= j < u.levels ensures Usable(u, x, j, level) {
      assert Usable(w, x, j, level);
      WriteUsable(w, u, v, k, x, j, level, gnext, next);
    }
  }

  lemma WriteUsable(w: View, u: View, v: seq<nat>, k: nat, x: seq<nat>, j: nat, level: nat, gnext: nat, next: nat)
    requires Writes(w, u, v, k, gnext, next) && Usable(w, x, j, level) && level <= j && !CutsOff(v, k, x, level)
    ensures Usable(u, x, j, level)
  {
    if Has(u, x, j) {
      WrittenRead(w, u, v, k, x, j, gnext, next);
      assert Below(w, x, j, gnext, next);
      assert CellKept(w, u, ReadAt(w, v, k), x, j);
      assert ReadApart(w, v, k, x, j);
      hide TableAt;
    }
  }
}
