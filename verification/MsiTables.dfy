/** Which entry of the MSI page table decides what becomes of an access to an interrupt file. */
module MsiTables {
  import opened Bits
  import opened Common
  import opened PageTables
  import opened SecondStage
  import opened DeviceContexts
  import opened Msi

  // ---------------------------------------------------------------- interrupt files

  /** Bit by bit: outside the mask the page number has the bits of the pattern, up to bit `w`. */
  predicate HasPattern(gpa: nat, pattern: nat, mask: nat, w: nat) {
    forall i: nat | i < w :: BitAgrees(Shr(gpa, PAGE_SHIFT), pattern, mask, i)
  }

  predicate BitAgrees(x: nat, y: nat, m: nat, i: nat) { Bit(m, i) == 0 ==> Bit(x, i) == Bit(y, i) }

  /** The bits of a page number that number the interrupt files. */
  function Selected(mask: U64, w: nat): nat { And(mask, Pow2(w) - 1) }

  /** `n` numbers the file at `gpa`: spread out under the mask it gives the bits of the page number there. */
  predicate Numbers(n: nat, gpa: nat, mask: U64, w: nat) {
    n < Pow2(PopCount(Selected(mask, w))) && Deposit(n, Selected(mask, w)) == And(Shr(gpa, PAGE_SHIFT), Selected(mask, w))
  }

  /** Numbers agree outside a mask, up to bit `w`, exactly if those bits do one by one. */
  lemma {:induction false} UnmaskedBits(x: nat, y: nat, m: nat, n: nat, k: nat, w: nat)
    requires w <= k && m + n == Pow2(k) - 1
    ensures Low(And(x, n), w) == Low(And(y, n), w) <==> forall i: nat | i < w :: BitAgrees(x, y, m, i)
  {
    if w > 0 {
      assert m / 2 + n / 2 == Pow2(k - 1) - 1 && m % 2 + n % 2 == 1;
      AndHalves(x, n);
      AndHalves(y, n);
      UnmaskedBits(x / 2, y / 2, m / 2, n / 2, k - 1, w - 1);
      NextBits(x, y, m, w);
    }
  }

  lemma NextBits(x: nat, y: nat, m: nat, w: nat)
    requires w > 0
    ensures (forall i: nat | i < w :: BitAgrees(x, y, m, i)) <==>
            (m % 2 == 0 ==> x % 2 == y % 2) && forall i: nat | i < w - 1 :: BitAgrees(x / 2, y / 2, m / 2, i)
  {
    assert forall i: nat :: BitAgrees(x, y, m, i + 1) == BitAgrees(x / 2, y / 2, m / 2, i);
    assert BitAgrees(x, y, m, 0) == (m % 2 == 0 ==> x % 2 == y % 2);
    if forall i: nat | i < w - 1 :: BitAgrees(x / 2, y / 2, m / 2, i) {
      forall i: nat | 0 < i < w ensures BitAgrees(x, y, m, i) { assert BitAgrees(x / 2, y / 2, m / 2, i - 1); }
    }
  }

  /** An address is that of an interrupt file exactly if it has the pattern outside the mask. */
  lemma IsFileIff(gpa: U64, pattern: U64, mask: U64, w: nat)
    requires w <= 64
    ensures IsMsi(gpa, pattern, mask, w) <==> HasPattern(gpa, pattern, mask, w)
  {
    var x := Shr(gpa, PAGE_SHIFT);
    Pow2Of64();
    AndLowMask(And(x, Not64(mask)), w);
    AndLowMask(And(pattern, Not64(mask)), w);
    hide And, Low, Shr, Pow2, BitAgrees;
    UnmaskedBits(x, pattern, mask, Not64(mask), 64, w);
  }

  lemma {:induction false} ExtractIgnores(x: nat, m: nat)
    ensures Extract(And(x, m), m) == Extract(x, m)
  {
    if m != 0 {
      AndHalves(x, m);
      ExtractIgnores(x / 2, m / 2);
      if x == 0 { AndZero(m); }
    }
  }

  lemma NumberIsFile(n: nat, gpa: U64, mask: U64, w: nat)
    requires Numbers(n, gpa, mask, w)
    ensures n == FileNumber(gpa, mask, w)
  {
    hide And, Extract, Deposit, Low, Shr, Pow2, PopCount;
    var m := Selected(mask, w);
    ExtractDeposit(n, m);
    ExtractIgnores(Shr(gpa, PAGE_SHIFT), m);
    ShrZero(n, PopCount(m));
  }

  // ---------------------------------------------------------------- the entry of a file

  /** The access is to interrupt file `n`, whose entry lies in a table aligned to 2^k bytes. */
  predicate AtFile(caps: Capabilities, msi: MsiFields, gpa: U64, n: nat, k: nat) {
    && msi.mode != MSI_OFF && caps.pas <= 56 && HasPattern(gpa, msi.pattern, msi.mask, PageBits(caps))
    && Numbers(n, gpa, msi.mask, PageBits(caps)) && Low(msi.ppn * PAGE_SIZE, k) == 0 && 16 * n < Pow2(k)
  }

  lemma ReadsEntry(caps: Capabilities, msi: MsiFields, ptes: map<nat, MsiPte>, gpa: U64, deny: bool, m: Store, n: nat, k: nat)
    requires AtFile(caps, msi, gpa, n, k)
    ensures var addr := msi.ppn * PAGE_SIZE + 16 * n;
            MsiTranslation(caps, msi, ptes, gpa, deny, m) ==
              if addr >= Pow2(caps.pas) || LoadStatus(m, addr).AccessFault? then MsiOutcome.MsiFault(261)
              else if LoadStatus(m, addr).DataCorruption? then MsiOutcome.MsiFault(270)
              else MsiEntry(caps, PteIn(ptes, addr), gpa, deny)
  {
    hide Pow2, Or, And, Low, Shr, MsiEntry, IsMsi, FileNumber, HasPattern, Numbers, PageBits;
    PageBitsFit(caps);
    IsFileIff(gpa, msi.pattern, msi.mask, PageBits(caps));
    NumberIsFile(n, gpa, msi.mask, PageBits(caps));
    OrIsPlus(msi.ppn * PAGE_SIZE, 16 * n, k);
  }

  lemma PageBitsFit(caps: Capabilities)
    requires caps.pas <= 56
    ensures PageBits(caps) <= 64
  {
  }

  /** What becomes of the access is decided by the entry of the file's number alone. */
  lemma OnlyItsEntry(caps: Capabilities, msi: MsiFields, ptes: map<nat, MsiPte>, other: map<nat, MsiPte>, gpa: U64, deny: bool,
                     m: Store, n: nat, k: nat)
    requires AtFile(caps, msi, gpa, n, k) && PteIn(ptes, msi.ppn * PAGE_SIZE + 16 * n) == PteIn(other, msi.ppn * PAGE_SIZE + 16 * n)
    ensures MsiTranslation(caps, msi, ptes, gpa, deny, m) == MsiTranslation(caps, msi, other, gpa, deny, m)
  {
    hide MsiTranslation, MsiEntry, AtFile;
    ReadsEntry(caps, msi, ptes, gpa, deny, m, n, k);
    ReadsEntry(caps, msi, other, gpa, deny, m, n, k);
  }

  /** The access goes through to the page of the entry exactly if the entry is a valid basic one and the access
      no checked execute; to the notice page exactly if it is a valid one of an MRIF that the IOMMU has. */
  lemma EntryDecides(caps: Capabilities, msi: MsiFields, ptes: map<nat, MsiPte>, gpa: U64, deny: bool, m: Store, n: nat, k: nat)
    requires AtFile(caps, msi, gpa, n, k)
    requires var addr := msi.ppn * PAGE_SIZE + 16 * n; addr < Pow2(caps.pas) && LoadStatus(m, addr).Okay? && PteIn(ptes, addr).M < 4
    ensures var (r, p) := (MsiTranslation(caps, msi, ptes, gpa, deny, m), PteIn(ptes, msi.ppn * PAGE_SIZE + 16 * n));
            && (r.MsiTranslated? <==> p.V && !p.C && p.M == 3 && !p.reserved && !deny)
            && (r.MsiTranslated? ==> r.pa == p.ppn * PAGE_SIZE + gpa % PAGE_SIZE)
            && (r.MsiNotice? <==> p.V && !p.C && p.M == 1 && caps.msiMrif && !p.mrifReserved && !deny)
            && (r.MsiNotice? ==> r.pa == p.nppn * PAGE_SIZE && r.nid == p.nid && r.mrif == p.mrif)
            && (r == MsiOutcome.MsiFault(262) <==> !p.V) && !r.NotMsi?
            && (r.MsiFault? && p.V ==> r.cause == 1 || r.cause == 263) && (r == MsiOutcome.MsiFault(1) ==> deny)
  {
    hide MsiTranslation, AtFile, Or;
    ReadsEntry(caps, msi, ptes, gpa, deny, m, n, k);
    PageOffset(PteIn(ptes, msi.ppn * PAGE_SIZE + 16 * n).ppn, gpa % PAGE_SIZE);
  }

  lemma PageOffset(page: nat, off: nat)
    requires off < PAGE_SIZE
    ensures Or(page * PAGE_SIZE, off) == page * PAGE_SIZE + off
  {
    hide Or, Low, Shr, Pow2;
    SmallPowers();
    ShrOfMultiple(page, 12, 0);
    OrIsPlus(page * PAGE_SIZE, off, 12);
  }

  /** Files in different pages have entries of their own: setting one leaves the accesses to the other. */
  lemma SetIndependently(caps: Capabilities, msi: MsiFields, ptes: map<nat, MsiPte>, a: U64, b: U64, pte: MsiPte, deny: bool,
                         m: Store, i: nat, j: nat, k: nat)
    requires AtFile(caps, msi, a, i, k) && AtFile(caps, msi, b, j, k)
    requires Low(Shr(a, PAGE_SHIFT), PageBits(caps)) != Low(Shr(b, PAGE_SHIFT), PageBits(caps))
    ensures var ptes1 := ptes[msi.ppn * PAGE_SIZE + 16 * i := pte];
            && PteIn(ptes1, msi.ppn * PAGE_SIZE + 16 * i) == pte
            && MsiTranslation(caps, msi, ptes1, b, deny, m) == MsiTranslation(caps, msi, ptes, b, deny, m)
  {
    hide MsiTranslation, IsMsi, FileNumber, Low, Shr, Numbers, HasPattern, PageBits, Pow2;
    PageBitsFit(caps);
    IsFileIff(a, msi.pattern, msi.mask, PageBits(caps));
    IsFileIff(b, msi.pattern, msi.mask, PageBits(caps));
    NumberIsFile(i, a, msi.mask, PageBits(caps));
    NumberIsFile(j, b, msi.mask, PageBits(caps));
    if i == j { FileNumberIsInjective(a, b, msi.pattern, msi.mask, caps); }
    OnlyItsEntry(caps, msi, ptes[msi.ppn * PAGE_SIZE + 16 * i := pte], ptes, b, deny, m, j, k);
  }

  /** Any other access, and any with the MSI page tables off, is left to the second stage. */
  lemma OthersGoOn(caps: Capabilities, msi: MsiFields, ptes: map<nat, MsiPte>, gpa: U64, deny: bool, m: Store)
    requires caps.pas <= 56
    ensures MsiTranslation(caps, msi, ptes, gpa, deny, m).NotMsi? <==>
              msi.mode == MSI_OFF || !HasPattern(gpa, msi.pattern, msi.mask, PageBits(caps))
  {
    hide IsMsi, HasPattern, FileNumber, Or, Pow2, PageBits;
    PageBitsFit(caps);
    IsFileIff(gpa, msi.pattern, msi.mask, PageBits(caps));
  }

  /** The page-number bits compared are those of guest addresses of the widest mode there is. */
  lemma ComparedBits(caps: Capabilities, sp: Space, gpa: nat)
    requires sp.gmode.Paged? && !sp.sxl
    requires match sp.gmode.format
             case Sv57 => caps.sv57x4
             case Sv48 => caps.sv48x4 && !caps.sv57x4
             case Sv39 => caps.sv39x4 && !caps.sv48x4 && !caps.sv57x4
             case Sv32 => false
    ensures GpaFits(sp, gpa) <==> gpa < Pow2(PAGE_SHIFT + PageBits(caps))
  {
    WidthConstants();
    hide Pow2;
  }
}
