/** Naturally aligned power-of-two ranges of pages, coded in a page number whose trailing ones give
    the size, as the IOATC and the invalidation commands hold them. */
module Napot {
  import opened Bits
  import opened Common
  import opened PageTables
  import opened Superpages

  /** Bits 63:12 of an address. */
  type PageNumber = x: nat | x < 0x10_0000_0000_0000

  /** The range coded by `pn` (one page when `s` is clear) has 2^RangeBits pages. */
  function RangeBits(pn: nat, s: bool): nat { if s then TrailingOnes(pn) + 1 else 0 }

  predicate InRange(page: nat, pn: nat, s: bool) { SameBlock(page, pn, RangeBits(pn, s)) }

  /** `~0UL` or `~(pn ^ (pn + 1))`. */
  function RangeMask(pn: PageNumber, s: bool): U64 {
    if s then XorBound(pn); Not64(Xor(pn, pn + 1)) else TWO_64 - 1
  }

  lemma XorBound(pn: PageNumber)
    ensures Xor(pn, pn + 1) < TWO_64
    ensures RangeBits(pn, true) <= 53
  {
    XorSuccessor(pn);
    Pow2Of64();
    TrailingOnesBound(pn, 52);
    assert Pow2(52) == 16 * Pow2(48);
    Pow2Mono(TrailingOnes(pn) + 1, 53);
    Pow2Mono(53, 64);
  }

  lemma {:induction false} TrailingOnesBound(x: nat, n: nat)
    requires x < Pow2(n)
    ensures TrailingOnes(x) <= n
  {
    if x % 2 == 1 && n > 0 { TrailingOnesBound(x / 2, n - 1); }
  }

  /** `match_address_range` */
  function MatchAddressRange(vpn: PageNumber, vpnS: bool, base: PageNumber, s: bool): bool {
    And(And(vpn, RangeMask(base, s)), RangeMask(vpn, vpnS)) == And(And(base, RangeMask(base, s)), RangeMask(vpn, vpnS))
  }

  lemma MaskClears(x: U64, pn: PageNumber, s: bool)
    ensures And(x, RangeMask(pn, s)) == x - Low(x, RangeBits(pn, s))
  {
    Pow2Of64();
    if s {
      XorBound(pn);
      XorSuccessor(pn);
      AndHighMask(x, RangeBits(pn, s), 64);
    } else {
      AndLowMask(x, 64);
      ShrZero(x, 64);
    }
  }

  lemma {:induction false} ClearTwice(x: nat, j: nat, k: nat)
    ensures Shr(x - Low(x, j), k) == Shr(x, k) - Low(Shr(x, k), if j > k then j - k else 0)
    ensures (x - Low(x, j)) - Low(x - Low(x, j), k) == x - Low(x, if j > k then j else k)
  {
    if j > 0 && k > 0 {
      assert (x - Low(x, j)) == 2 * (x / 2 - Low(x / 2, j - 1));
      ClearTwice(x / 2, j - 1, k - 1);
    }
  }

  lemma {:induction false} ClearedEqual(x: nat, y: nat, k: nat)
    ensures x - Low(x, k) == y - Low(y, k) <==> Shr(x, k) == Shr(y, k)
  {
    if k > 0 { ClearedEqual(x / 2, y / 2, k - 1); }
  }

  /** The match is equality of the two numbers above the larger of the two sizes. */
  lemma MatchMeaning(vpn: PageNumber, vpnS: bool, base: PageNumber, s: bool)
    ensures MatchAddressRange(vpn, vpnS, base, s) <==>
            SameBlock(vpn, base, if RangeBits(base, s) > RangeBits(vpn, vpnS) then RangeBits(base, s) else RangeBits(vpn, vpnS))
  {
    hide Low, And, RangeMask, RangeBits, Shr;
    var j, k := RangeBits(base, s), RangeBits(vpn, vpnS);
    MaskClears(vpn, base, s);
    MaskClears(base, base, s);
    MaskClears(vpn - Low(vpn, j), vpn, vpnS);
    MaskClears(base - Low(base, j), vpn, vpnS);
    ClearTwice(vpn, j, k);
    ClearTwice(base, j, k);
    ClearedEqual(vpn, base, if j > k then j else k);
  }

  /** `match_address_range` holds exactly when the two coded ranges have a page in common. */
  lemma MatchIffRangesMeet(vpn: PageNumber, vpnS: bool, base: PageNumber, s: bool)
    ensures MatchAddressRange(vpn, vpnS, base, s) <==> exists page :: InRange(page, vpn, vpnS) && InRange(page, base, s)
  {
    var j, k := RangeBits(base, s), RangeBits(vpn, vpnS);
    var big := if j > k then j else k;
    MatchMeaning(vpn, vpnS, base, s);
    if MatchAddressRange(vpn, vpnS, base, s) {
      var page := if j > k then vpn else base;
      assert InRange(page, vpn, vpnS) && InRange(page, base, s);
    }
    forall page | InRange(page, vpn, vpnS) && InRange(page, base, s) ensures SameBlock(vpn, base, big) {
      ShrAgree(page, vpn, k, big);
      ShrAgree(page, base, j, big);
    }
  }

  /** An all-ones operand with S set stands for every page. */
  lemma AllOnesMatchesAll(base: PageNumber, s: bool)
    ensures MatchAddressRange(0xF_FFFF_FFFF_FFFF, true, base, s)
  {
    var ones: PageNumber := 0xF_FFFF_FFFF_FFFF;
    Pow2Of64();
    assert Pow2(52) == 16 * Pow2(48);
    OnesTrail(52);
    MatchMeaning(ones, true, base, s);
    var big := if RangeBits(base, s) > RangeBits(ones, true) then RangeBits(base, s) else RangeBits(ones, true);
    Pow2Mono(52, big);
    ShrZero(ones, big);
    ShrZero(base, big);
  }

  lemma {:induction false} OnesTrail(n: nat)
    ensures TrailingOnes(Pow2(n) - 1) == n
  {
    if n > 0 {
      assert (Pow2(n) - 1) / 2 == Pow2(n - 1) - 1;
      OnesTrail(n - 1);
    }
  }

  // ---------------------------------------------------------------- coding a page

  /** `((addr & ~(page_sz - 1)) | ((page_sz / 2) - 1)) / PAGESIZE` */
  function NapotPn(addr: U64, pageSize: U64): nat
    requires pageSize > 1
  {
    Or(And(addr, Not64(pageSize - 1)), pageSize / 2 - 1) / PAGE_SIZE
  }

  /** The code of the page of 2^lg bytes at `addr`: its number with the low bits replaced by 0111..1. */
  function Coded(addr: nat, lg: nat): nat
    requires lg >= 12
  {
    Splice(addr / PAGE_SIZE, if lg == 12 then 0 else Pow2(lg - 13) - 1, lg - 12)
  }

  lemma SizeFits(lg: nat)
    requires 12 <= lg < 64
    ensures 1 < Pow2(lg) < TWO_64 == Pow2(64) && Pow2(lg) / 2 == Pow2(lg - 1)
  {
    Pow2Of64();
    Pow2Mono(0, lg);
    Pow2Mono(lg, 64);
    assert Pow2(0) == 1;
  }

  lemma NapotBits(addr: U64, lg: nat)
    requires 12 <= lg < 64
    ensures 1 < Pow2(lg) < TWO_64
    ensures NapotPn(addr, Pow2(lg)) == Splice(addr, Pow2(lg - 1) - 1, lg) / PAGE_SIZE
  {
    hide And, Or, Low, Shr, Splice, Pow2;
    SizeFits(lg);
    Pow2Mono(lg - 1, lg);
    AndHighMask(addr, lg, 64);
    var ones := Pow2(lg - 1) - 1;
    SpliceParts(addr, 0, lg);
    LowOfZero(lg);
    OrIsPlus(addr - Low(addr, lg), ones, lg);
    ShrZero(ones, lg);
    SpliceParts(addr, ones, lg);
  }

  lemma NapotPnIsCoded(addr: U64, lg: nat)
    requires 12 <= lg < 64
    ensures 1 < Pow2(lg) < TWO_64
    ensures NapotPn(addr, Pow2(lg)) == Coded(addr, lg) < 0x10_0000_0000_0000
  {
    hide NapotPn, Splice, Pow2, Shr, Low;
    NapotBits(addr, lg);
    var ones := Pow2(lg - 1) - 1;
    SplicePages(addr, ones, lg, 12);
    PageShift(Splice(addr, ones, lg));
    PageShift(addr);
    OnesShr(lg - 1, 12);
    PageBound(addr);
    SpliceBound(addr / PAGE_SIZE, Shr(ones, 12), lg - 12, 52);
  }

  lemma PageShift(x: nat)
    ensures Shr(x, 12) == x / PAGE_SIZE
  {
    SmallPowers();
    LowIsRemainder(x, 12);
  }

  lemma PageBound(x: U64)
    ensures x / PAGE_SIZE < Pow2(52) == 0x10_0000_0000_0000
  {
    Pow2Of64();
    assert Pow2(52) == 16 * Pow2(48);
  }

  lemma CodedBound(addr: nat, lg: nat, n: nat)
    requires 12 <= lg <= n && addr < Pow2(n)
    ensures Coded(addr, lg) < Pow2(n - 12)
  {
    PageShift(addr);
    ShrShr(addr, 12, n - 12);
    ShrZero(addr, n);
    ShrZero(Shr(addr, 12), n - 12);
    SpliceBound(addr / PAGE_SIZE, if lg == 12 then 0 else Pow2(lg - 13) - 1, lg - 12, n - 12);
  }

  lemma {:induction false} SplicePages(hi: nat, lo: nat, k: nat, j: nat)
    requires j <= k
    ensures Shr(Splice(hi, lo, k), j) == Splice(Shr(hi, j), Shr(lo, j), k - j)
  {
    if j > 0 { SplicePages(hi / 2, lo / 2, k - 1, j - 1); }
  }

  lemma {:induction false} OnesShr(n: nat, j: nat)
    ensures Shr(Pow2(n) - 1, j) == if n >= j then Pow2(n - j) - 1 else 0
  {
    if n > 0 && j > 0 {
      assert (Pow2(n) - 1) / 2 == Pow2(n - 1) - 1;
      OnesShr(n - 1, j - 1);
    } else if n == 0 {
      ShrZero(0, j);
    }
  }

  lemma {:induction false} SpliceTrail(hi: nat, k: nat)
    requires k > 0
    ensures TrailingOnes(Splice(hi, Pow2(k - 1) - 1, k)) == k - 1
  {
    var ones := Pow2(k - 1) - 1;
    if k > 1 {
      assert ones == 2 * (Pow2(k - 2) - 1) + 1;
      SpliceTrail(hi / 2, k - 1);
      assert Splice(hi, ones, k) == 2 * Splice(hi / 2, Pow2(k - 2) - 1, k - 1) + 1;
    } else {
      assert Splice(hi, ones, 1) == 2 * (hi / 2);
    }
  }

  /** Coding then decoding gives back the size and the page. */
  lemma CodedRoundTrip(addr: nat, lg: nat)
    requires lg >= 12
    ensures RangeBits(Coded(addr, lg), lg > 12) == lg - 12
    ensures SameBlock(Coded(addr, lg), addr / PAGE_SIZE, lg - 12)
    ensures forall x: nat :: InRange(x / PAGE_SIZE, Coded(addr, lg), lg > 12) <==> SameBlock(x, addr, lg)
  {
    if lg > 12 { SpliceTrail(addr / PAGE_SIZE, lg - 12); }
    SpliceParts(addr / PAGE_SIZE, if lg == 12 then 0 else Pow2(lg - 13) - 1, lg - 12);
    PageOf(addr, lg);
    forall x: nat ensures Shr(x / PAGE_SIZE, lg - 12) == Shr(x, lg) { PageOf(x, lg); }
  }

  lemma PageOf(x: nat, lg: nat)
    requires lg >= 12
    ensures Shr(x / PAGE_SIZE, lg - 12) == Shr(x, lg)
  {
    SmallPowers();
    LowIsRemainder(x, 12);
    ShrShr(x, 12, lg - 12);
  }

  /** The physical side of the code: `((PPN ^ (PPN + 1)) + 1) * PAGESIZE` is the size, and the address is
      the coded page with the offset of `iova`. */
  lemma DecodedAddress(pa: nat, iova: nat, lg: nat)
    requires lg >= 12
    ensures Splice(Coded(pa, lg) * PAGE_SIZE, iova, lg) == Splice(pa, iova, lg)
  {
    SmallPowers();
    var c := Coded(pa, lg);
    ShrOfMultiple(c, 12, 0);
    ShrShr(c * PAGE_SIZE, 12, lg - 12);
    CodedRoundTrip(pa, lg);
    PageOf(pa, lg);
    SpliceDepends(c * PAGE_SIZE, pa, iova, lg);
  }
}
