/** Recognizing accesses to virtual interrupt files, and numbering the files. */
module Msi {
  import opened Bits
  import opened Common
  import opened PageTables
  import opened DeviceContexts

  /** The bits of `x` that `m` selects, packed at the low end. */
  function Extract(x: nat, m: nat): nat {
    if m == 0 then 0
    else if m % 2 == 1 then 2 * Extract(x / 2, m / 2) + x % 2
    else Extract(x / 2, m / 2)
  }

  /** The low bits of `y` spread out to where `m` has ones. */
  function Deposit(y: nat, m: nat): nat {
    if m == 0 then 0
    else if m % 2 == 1 then 2 * Deposit(y / 2, m / 2) + y % 2
    else 2 * Deposit(y, m / 2)
  }

  function PopCount(m: nat): nat { if m == 0 then 0 else PopCount(m / 2) + m % 2 }

  /** `(x >> i) & 1` */
  function Bit(x: nat, i: nat): nat { Shr(x, i) % 2 }

  /** `extract` */
  method ExtractCode(data: U64, mask: U64) returns (I: nat)
    ensures I == Extract(data, mask)
  {
    var j: nat := 0;
    I := 0;
    for i := 0 to 64
      invariant j <= i && I < Pow2(j)
      invariant Extract(data, mask) == I + Pow2(j) * Extract(Shr(data, i), Shr(mask, i))
    {
      ExtractStep(data, mask, i, j, I);
      hide Extract, Or, Shr;
      if Bit(mask, i) == 1 {
        I := Or(I, Bit(data, i) * Pow2(j));
        j := j + 1;
      }
    }
    Pow2Of64();
    ShrZero(mask, 64);
  }

  lemma ExtractStep(x: nat, m: nat, i: nat, j: nat, acc: nat)
    requires acc < Pow2(j)
    ensures var (b, c) := (Bit(m, i), Bit(x, i));
            && Or(acc, c * Pow2(j)) == acc + c * Pow2(j) < Pow2(j + 1)
            && acc + Pow2(j) * Extract(Shr(x, i), Shr(m, i)) ==
               if b == 1 then acc + c * Pow2(j) + Pow2(j + 1) * Extract(Shr(x, i + 1), Shr(m, i + 1))
               else acc + Pow2(j) * Extract(Shr(x, i + 1), Shr(m, i + 1))
  {
    ShrShr(x, i, 1);
    ShrShr(m, i, 1);
    OrTop(acc, j, Bit(x, i));
    var y, n, p := Shr(x, i), Shr(m, i), Pow2(j);
    assert Shr(x, i + 1) == y / 2 && Shr(m, i + 1) == n / 2;
    ExtractUnfolds(y, n);
    var e := Extract(y / 2, n / 2);
    hide Shr, Or, Extract, Pow2;
    if n % 2 == 1 { Distribute(p, e, y % 2); }
  }

  lemma Distribute(p: nat, e: nat, c: nat)
    ensures p * (2 * e + c) == c * p + 2 * p * e
  {
  }

  lemma ExtractUnfolds(x: nat, m: nat)
    ensures Extract(x, m) == if m % 2 == 1 then 2 * Extract(x / 2, m / 2) + x % 2 else Extract(x / 2, m / 2)
  {
  }

  lemma {:induction false} OrTop(x: nat, j: nat, c: nat)
    requires x < Pow2(j) && c <= 1
    ensures Or(x, c * Pow2(j)) == x + c * Pow2(j)
  {
    if c == 1 && x != 0 {
      OrTop(x / 2, j - 1, 1);
      assert Pow2(j) / 2 == Pow2(j - 1) && Pow2(j) % 2 == 0;
    }
  }

  /** An interrupt file number has as many bits as the mask has ones. */
  lemma {:induction false} ExtractBound(x: nat, m: nat)
    ensures Extract(x, m) < Pow2(PopCount(m))
  {
    if m != 0 { ExtractBound(x / 2, m / 2); }
  }

  /** Depositing the extracted bits gives back the bits under the mask. */
  lemma {:induction false} DepositExtract(x: nat, m: nat)
    ensures Deposit(Extract(x, m), m) == And(x, m)
  {
    if m != 0 {
      DepositExtract(x / 2, m / 2);
      if x == 0 { AndZero(m / 2); }
    }
  }

  lemma AndZero(m: nat)
    ensures And(0, m) == 0
  {
  }

  /** And the other way round: every number of that many bits is the number of some file. */
  lemma {:induction false} ExtractDeposit(y: nat, m: nat)
    ensures Extract(Deposit(y, m), m) == Low(y, PopCount(m))
  {
    if m != 0 {
      if m % 2 == 1 {
        ExtractDeposit(y / 2, m / 2);
        assert Deposit(y, m) / 2 == Deposit(y / 2, m / 2) && Deposit(y, m) % 2 == y % 2;
      } else {
        ExtractDeposit(y, m / 2);
        assert Deposit(y, m) / 2 == Deposit(y, m / 2);
      }
    }
  }

  // ---------------------------------------------------------------- the match

  /** The page-number bits of a guest physical address */
  function PageBits(c: Capabilities): nat {
    (if c.sv57x4 then 59 else if c.sv48x4 then 50 else if c.sv39x4 then 41 else if c.sv32x4 then 34
     else if c.pas > 12 then c.pas else 12) - PAGE_SHIFT
  }

  /** The guest physical address is that of a virtual interrupt file. */
  predicate IsMsi(gpa: U64, pattern: U64, mask: U64, w: nat) {
    And(And(Shr(gpa, PAGE_SHIFT), Not64(mask)), Pow2(w) - 1) == And(And(pattern, Not64(mask)), Pow2(w) - 1)
  }

  function FileNumber(gpa: U64, mask: U64, w: nat): nat { Extract(Shr(gpa, PAGE_SHIFT), And(mask, Pow2(w) - 1)) }

  /** Where masked and unmasked bits agree, all do. */
  lemma {:induction false} BitsFromParts(x: nat, y: nat, m: nat, n: nat, k: nat, w: nat)
    requires w <= k && m + n == Pow2(k) - 1
    requires And(And(x, n), Pow2(w) - 1) == And(And(y, n), Pow2(w) - 1)
    requires And(x, And(m, Pow2(w) - 1)) == And(y, And(m, Pow2(w) - 1))
    ensures Low(x, w) == Low(y, w)
  {
    AndLowMask(And(x, n), w);
    AndLowMask(And(y, n), w);
    AndLowMask(m, w);
    LowFromParts(x, y, m, n, k, w);
  }

  lemma {:induction false} LowFromParts(x: nat, y: nat, m: nat, n: nat, k: nat, w: nat)
    requires w <= k && m + n == Pow2(k) - 1
    requires Low(And(x, n), w) == Low(And(y, n), w) && And(x, Low(m, w)) == And(y, Low(m, w))
    ensures Low(x, w) == Low(y, w)
  {
    if w > 0 {
      assert m / 2 + n / 2 == Pow2(k - 1) - 1 && m % 2 + n % 2 == 1;
      AndHalves(x, n);
      AndHalves(y, n);
      AndHalves(x, Low(m, w));
      AndHalves(y, Low(m, w));
      LowFromParts(x / 2, y / 2, m / 2, n / 2, k - 1, w - 1);
    }
  }

  lemma AndHalves(x: nat, y: nat)
    ensures And(x, y) / 2 == And(x / 2, y / 2) && And(x, y) % 2 == (if x % 2 == 1 && y % 2 == 1 then 1 else 0)
  {
  }

  /** Two addresses of interrupt files with the same number are in the same page. */
  lemma FileNumberIsInjective(a: U64, b: U64, pattern: U64, mask: U64, c: Capabilities)
    requires IsMsi(a, pattern, mask, PageBits(c)) && IsMsi(b, pattern, mask, PageBits(c)) && c.pas <= 56
    requires FileNumber(a, mask, PageBits(c)) == FileNumber(b, mask, PageBits(c))
    ensures Low(Shr(a, PAGE_SHIFT), PageBits(c)) == Low(Shr(b, PAGE_SHIFT), PageBits(c))
  {
    var w := PageBits(c);
    var m := And(mask, Pow2(w) - 1);
    DepositExtract(Shr(a, PAGE_SHIFT), m);
    DepositExtract(Shr(b, PAGE_SHIFT), m);
    Pow2Of64();
    hide And, Low, Shr, Pow2, Extract, Deposit;
    BitsFromParts(Shr(a, PAGE_SHIFT), Shr(b, PAGE_SHIFT), mask, Not64(mask), 64, w);
  }

  // ---------------------------------------------------------------- the translation

  /** An MSI page-table entry: `V`, `M`, `C`, and what its two layouts read in the rest. */
  datatype MsiPte = MsiPte(V: bool, M: nat, C: bool,
                           ppn: Ppn, reserved: bool,
                           nppn: Ppn, nid: nat, mrif: nat, mrifReserved: bool)

  const NO_MSI_PTE := MsiPte(false, 0, false, 0, false, 0, 0, 0, false)

  datatype MsiOutcome = NotMsi | MsiFault(cause: nat) | MsiTranslated(pa: nat) | MsiNotice(pa: nat, nid: nat, mrif: nat)

  function PteIn(ptes: map<nat, MsiPte>, addr: nat): MsiPte { if addr in ptes then ptes[addr] else NO_MSI_PTE }

  /** What an entry says of the address; `deny` refuses a checked read for execute. */
  function MsiEntry(caps: Capabilities, pte: MsiPte, gpa: U64, deny: bool): MsiOutcome {
    if !pte.V then MsiFault(262)
    else if pte.C || pte.M == 0 || pte.M == 2 then MsiFault(263)
    else if pte.M == 3 && pte.reserved then MsiFault(263)
    else if pte.M != 3 && (!caps.msiMrif || pte.mrifReserved) then MsiFault(263)
    else if deny then MsiFault(1)
    else if pte.M == 3 then MsiTranslated(Or(pte.ppn * PAGE_SIZE, gpa % PAGE_SIZE))
    else MsiNotice(pte.nppn * PAGE_SIZE, pte.nid, pte.mrif)
  }

  /** `msi_address_translation` */
  function MsiTranslation(caps: Capabilities, msi: MsiFields, ptes: map<nat, MsiPte>, gpa: U64, deny: bool, m: Store): MsiOutcome {
    if msi.mode == MSI_OFF || !IsMsi(gpa, msi.pattern, msi.mask, PageBits(caps)) then NotMsi
    else
      var addr := Or(msi.ppn * PAGE_SIZE, FileNumber(gpa, msi.mask, PageBits(caps)) * 16);
      if addr >= Pow2(caps.pas) then MsiFault(261)
      else match LoadStatus(m, addr)
        case AccessFault => MsiFault(261)
        case DataCorruption => MsiFault(270)
        case Okay => MsiEntry(caps, PteIn(ptes, addr), gpa, deny)
  }

  /** The code of `msi_address_translation` */
  method MsiAddressTranslation(caps: Capabilities, msi: MsiFields, ptes: map<nat, MsiPte>, gpa: U64, deny: bool, mem: Memory)
    returns (r: MsiOutcome)
    requires caps.pas <= 56
    ensures r == MsiTranslation(caps, msi, ptes, gpa, deny, mem.store)
  {
    hide And, Or, Pow2, Shr, Extract;
    if msi.mode == MSI_OFF { return NotMsi; }
    var page, ones := Shr(gpa, PAGE_SHIFT), Pow2(PageBits(caps)) - 1;
    if And(And(page, Not64(msi.mask)), ones) != And(And(msi.pattern, Not64(msi.mask)), ones) { return NotMsi; }
    AndBound(msi.mask, ones);
    ShrBound(gpa, PAGE_SHIFT);
    var I := ExtractCode(page, And(msi.mask, ones));
    var addr := Or(msi.ppn * PAGE_SIZE, I * 16);
    if addr >= Pow2(caps.pas) { return MsiFault(261); }
    var status := LoadStatus(mem.store, addr);
    if status.AccessFault? { return MsiFault(261); }
    if status.DataCorruption? { return MsiFault(270); }
    var pte := PteIn(ptes, addr);
    if !pte.V { return MsiFault(262); }
    if pte.C { return MsiFault(263); }
    if pte.M == 0 || pte.M == 2 { return MsiFault(263); }
    if pte.M == 3 {
      if pte.reserved { return MsiFault(263); }
      r := MsiTranslated(Or(pte.ppn * PAGE_SIZE, gpa % PAGE_SIZE));
    } else {
      if !caps.msiMrif { return MsiFault(263); }
      if pte.mrifReserved { return MsiFault(263); }
      r := MsiNotice(pte.nppn * PAGE_SIZE, pte.nid, pte.mrif);
    }
    if deny { return MsiFault(1); }
  }

  lemma {:induction false} AndBound(x: nat, y: nat)
    ensures And(x, y) <= x
  {
    if x != 0 && y != 0 { AndBound(x / 2, y / 2); }
  }

  lemma {:induction false} ShrBound(x: nat, k: nat)
    ensures Shr(x, k) <= x
  {
    if k > 0 { ShrBound(x / 2, k - 1); }
  }

  /** The entry used is in the table: where the file number times the size of an entry fits below the
      alignment of the table, each interrupt file has its own entry. */
  lemma EntriesApart(c: Capabilities, msi: MsiFields, a: U64, b: U64, k: nat)
    requires c.pas <= 56 && IsMsi(a, msi.pattern, msi.mask, PageBits(c)) && IsMsi(b, msi.pattern, msi.mask, PageBits(c))
    requires var (i, j) := (FileNumber(a, msi.mask, PageBits(c)), FileNumber(b, msi.mask, PageBits(c)));
             Low(msi.ppn * PAGE_SIZE, k) == 0 && i * 16 < Pow2(k) && j * 16 < Pow2(k) &&
             Or(msi.ppn * PAGE_SIZE, i * 16) == Or(msi.ppn * PAGE_SIZE, j * 16)
    ensures Low(Shr(a, PAGE_SHIFT), PageBits(c)) == Low(Shr(b, PAGE_SHIFT), PageBits(c))
  {
    hide Or, Low, Shr, Pow2, FileNumber, IsMsi;
    OrIsPlus(msi.ppn * PAGE_SIZE, FileNumber(a, msi.mask, PageBits(c)) * 16, k);
    OrIsPlus(msi.ppn * PAGE_SIZE, FileNumber(b, msi.mask, PageBits(c)) * 16, k);
    FileNumberIsInjective(a, b, msi.pattern, msi.mask, c);
  }
}
