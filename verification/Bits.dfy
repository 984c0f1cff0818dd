/** Bit operations on natural numbers, defined bit by bit, and what the
    masking idioms of the C code mean. */
module Bits {

  const TWO_64: nat := 0x1_0000_0000_0000_0000

  /** A C `uint64_t`. */
  type U64 = x: nat | x < TWO_64

  function Pow2(k: nat): (r: nat)
    ensures r > 0
  {
    if k == 0 then 1 else 2 * Pow2(k - 1)
  }

  /** `x >> k`, that is `x / 2^k`. */
  function Shr(x: nat, k: nat): nat {
    if k == 0 then x else Shr(x / 2, k - 1)
  }

  /** The low `k` bits of `x`, that is `x % 2^k`. */
  function Low(x: nat, k: nat): (r: nat)
    ensures r <= x
  {
    if k == 0 then 0 else 2 * Low(x / 2, k - 1) + x % 2
  }

  /** The bits of `hi` from position `k` up joined with the bits of `lo` below `k`. */
  function Splice(hi: nat, lo: nat, k: nat): nat {
    if k == 0 then hi else 2 * Splice(hi / 2, lo / 2, k - 1) + lo % 2
  }

  /** Bits `hi` down to `lo` of `x`. */
  function GetBits(hi: nat, lo: nat, x: nat): nat
    requires lo <= hi
  {
    Low(Shr(x, lo), hi - lo + 1)
  }

  function And(x: nat, y: nat): nat {
    if x == 0 || y == 0 then 0
    else 2 * And(x / 2, y / 2) + (if x % 2 == 1 && y % 2 == 1 then 1 else 0)
  }

  function Or(x: nat, y: nat): nat {
    if x == 0 then y else if y == 0 then x
    else 2 * Or(x / 2, y / 2) + (if x % 2 == 1 || y % 2 == 1 then 1 else 0)
  }

  function Xor(x: nat, y: nat): nat {
    if x == 0 then y else if y == 0 then x
    else 2 * Xor(x / 2, y / 2) + (if x % 2 != y % 2 then 1 else 0)
  }

  /** `~x` on a 64-bit operand. */
  function Not64(x: U64): U64 {
    TWO_64 - 1 - x
  }

  // ---------------------------------------------------------------- powers of two

  lemma {:induction false} Pow2Mono(a: nat, b: nat)
    requires a <= b
    ensures Pow2(a) <= Pow2(b)
    ensures a < b ==> Pow2(a) < Pow2(b)
  {
    if a < b { Pow2Mono(a, b - 1); }
  }

  /** `Pow2` is computed eight bits at a time. */
  lemma Pow2Plus8(k: nat)
    ensures Pow2(k + 8) == 256 * Pow2(k)
  {
    assert Pow2(k + 8) == 2 * Pow2(k + 7) && Pow2(k + 7) == 2 * Pow2(k + 6);
    assert Pow2(k + 6) == 2 * Pow2(k + 5) && Pow2(k + 5) == 2 * Pow2(k + 4);
    assert Pow2(k + 4) == 2 * Pow2(k + 3) && Pow2(k + 3) == 2 * Pow2(k + 2);
    assert Pow2(k + 2) == 2 * Pow2(k + 1) && Pow2(k + 1) == 2 * Pow2(k);
  }

  lemma Pow2Of64()
    ensures Pow2(64) == TWO_64 && Pow2(56) == 0x100_0000_0000_0000
    ensures Pow2(32) == 0x1_0000_0000 && Pow2(40) == 0x100_0000_0000 && Pow2(48) == 0x1_0000_0000_0000
    ensures Pow2(24) == 0x100_0000
  {
    Pow2Plus8(0); Pow2Plus8(8); Pow2Plus8(16); Pow2Plus8(24);
    Pow2Plus8(32); Pow2Plus8(40); Pow2Plus8(48); Pow2Plus8(56);
  }

  // ---------------------------------------------------------------- shifting and splitting

  lemma {:induction false} LowBound(x: nat, k: nat)
    ensures Low(x, k) < Pow2(k)
  {
    if k > 0 { LowBound(x / 2, k - 1); }
  }

  lemma FieldBound(hi: nat, lo: nat, x: nat)
    requires lo <= hi
    ensures GetBits(hi, lo, x) < Pow2(hi - lo + 1)
  {
    LowBound(Shr(x, lo), hi - lo + 1);
  }

  lemma {:induction false} ShrZero(x: nat, k: nat)
    ensures Shr(x, k) == 0 <==> x < Pow2(k)
    ensures x < Pow2(k) ==> Low(x, k) == x
  {
    if k > 0 { ShrZero(x / 2, k - 1); }
  }

  lemma {:induction false} ShrShr(x: nat, j: nat, k: nat)
    ensures Shr(Shr(x, j), k) == Shr(x, j + k)
  {
    if j > 0 { ShrShr(x / 2, j - 1, k); }
  }

  lemma {:induction false} LowLow(x: nat, j: nat, k: nat)
    requires j <= k
    ensures Low(Low(x, k), j) == Low(x, j)
  {
    if j > 0 { LowLow(x / 2, j - 1, k - 1); }
  }

  /** A field of `w` bits above `lo` is clear together with all below it exactly when both are. */
  lemma {:induction false} LowSplit(x: nat, lo: nat, w: nat)
    ensures Low(x, lo + w) == 0 <==> Low(x, lo) == 0 && Low(Shr(x, lo), w) == 0
  {
    if lo > 0 { LowSplit(x / 2, lo - 1, w); }
  }

  lemma {:induction false} LowZeroBelow(x: nat, j: nat, k: nat)
    requires j <= k && Low(x, k) == 0
    ensures Low(x, j) == 0
  {
    if j > 0 { LowZeroBelow(x / 2, j - 1, k - 1); }
  }

  /** A low field of a shifted number is not affected by bits above it. */
  lemma {:induction false} ShrMono(x: nat, y: nat, k: nat)
    requires x <= y
    ensures Shr(x, k) <= Shr(y, k)
  {
    if k > 0 { ShrMono(x / 2, y / 2, k - 1); }
  }

  lemma {:induction false} SpliceParts(hi: nat, lo: nat, k: nat)
    ensures Shr(Splice(hi, lo, k), k) == Shr(hi, k)
    ensures Low(Splice(hi, lo, k), k) == Low(lo, k)
    ensures Splice(hi, lo, k) == hi - Low(hi, k) + Low(lo, k)
  {
    if k > 0 { SpliceParts(hi / 2, lo / 2, k - 1); }
  }

  /** A number is fixed by its high and its low part. */
  lemma {:induction false} SpliceUnique(x: nat, hi: nat, lo: nat, k: nat)
    requires Shr(x, k) == Shr(hi, k) && Low(x, k) == Low(lo, k)
    ensures x == Splice(hi, lo, k)
  {
    if k > 0 {
      SpliceUnique(x / 2, hi / 2, lo / 2, k - 1);
    }
  }

  lemma {:induction false} SpliceBound(hi: nat, lo: nat, k: nat, n: nat)
    requires k <= n && hi < Pow2(n)
    ensures Splice(hi, lo, k) < Pow2(n)
  {
    if k > 0 { SpliceBound(hi / 2, lo / 2, k - 1, n - 1); }
  }

  /** Only the high part of `hi` and the low part of `lo` matter. */
  lemma {:induction false} SpliceDepends(h: nat, h': nat, lo: nat, k: nat)
    requires Shr(h, k) == Shr(h', k)
    ensures Splice(h, lo, k) == Splice(h', lo, k)
  {
    if k > 0 { SpliceDepends(h / 2, h' / 2, lo / 2, k - 1); }
  }

  lemma {:induction false} SpliceAgree(hi: nat, x: nat, y: nat, k: nat, j: nat)
    requires j <= k && Shr(x, j) == Shr(y, j)
    ensures Shr(Splice(hi, x, k), j) == Shr(Splice(hi, y, k), j)
  {
    if j > 0 {
      SpliceAgree(hi / 2, x / 2, y / 2, k - 1, j - 1);
    } else {
      assert x == y;
    }
  }

  lemma {:induction false} ShrOfLow(x: nat, n: nat, k: nat)
    requires k <= n
    ensures Shr(Low(x, n), k) == Low(Shr(x, k), n - k)
  {
    if k > 0 { ShrOfLow(x / 2, n - 1, k - 1); }
  }

  lemma {:induction false} LowIsRemainder(x: nat, k: nat)
    ensures Low(x, k) == x % Pow2(k) && Shr(x, k) == x / Pow2(k)
  {
    if k > 0 {
      LowIsRemainder(x / 2, k - 1);
      HalveDivisor(x, Pow2(k - 1));
    }
  }

  lemma HalveDivisor(x: nat, d: nat)
    requires d > 0
    ensures x % (2 * d) == 2 * (x / 2 % d) + x % 2 && x / (2 * d) == x / 2 / d
  {
    var q, r := x / 2 / d, x / 2 % d;
    assert x / 2 == q * d + r;
    assert x == q * (2 * d) + (2 * r + x % 2) by { assert 2 * (q * d) == q * (2 * d); }
    UniqueQuotient(x, 2 * d, q, 2 * r + x % 2);
  }

  lemma UniqueQuotient(x: nat, d: nat, q: nat, r: nat)
    requires d > 0 && r < d && x == q * d + r
    ensures x / d == q && x % d == r
  {
    var e, e' := q - x / d, x / d - q;
    assert e * d == x % d - r;
    assert e' * d == r - x % d;
    if e > 0 { PositiveMultiple(e, d); } else if e' > 0 { PositiveMultiple(e', d); }
  }

  lemma PositiveMultiple(e: int, d: int)
    requires e > 0 && d > 0
    ensures e * d >= d
  {
    assert (e - 1) * d >= 0;
  }

  /** Numbers that agree from bit `j` up agree from any higher bit up. */
  lemma ShrAgree(x: nat, y: nat, j: nat, k: nat)
    requires j <= k && Shr(x, j) == Shr(y, j)
    ensures Shr(x, k) == Shr(y, k)
  {
    ShrShr(x, j, k - j);
    ShrShr(y, j, k - j);
  }

  lemma DoubledProduct(q: nat, d: nat, e: nat, r: nat, x: nat)
    requires e == 2 * d && q * d + r == x / 2
    ensures q * e + (2 * r + x % 2) == x
  {
    assert q * e == 2 * (q * d);
  }

  /** The definitions by halving are division and remainder. */
  lemma {:induction false} ShrLowMeaning(x: nat, k: nat)
    ensures Shr(x, k) * Pow2(k) + Low(x, k) == x
  {
    if k > 0 {
      ShrLowMeaning(x / 2, k - 1);
      DoubledProduct(Shr(x, k), Pow2(k - 1), Pow2(k), Low(x / 2, k - 1), x);
    }
  }

  lemma {:induction false} ShrOfMultiple(q: nat, k: nat, r: nat)
    requires r < Pow2(k)
    ensures Shr(q * Pow2(k) + r, k) == q && Low(q * Pow2(k) + r, k) == r
  {
    if k > 0 {
      var d := Pow2(k - 1);
      assert q * (2 * d) == 2 * (q * d);
      ShrOfMultiple(q, k - 1, r / 2);
    }
  }

  // ---------------------------------------------------------------- masks

  lemma {:induction false} OrIsPlus(x: nat, y: nat, k: nat)
    requires Low(x, k) == 0 && y < Pow2(k)
    ensures Or(x, y) == x + y
  {
    if x != 0 && y != 0 && k != 0 { OrIsPlus(x / 2, y / 2, k - 1); }
  }

  lemma {:induction false} AndLowMask(x: nat, k: nat)
    ensures And(x, Pow2(k) - 1) == Low(x, k)
  {
    if k != 0 {
      AndLowMask(x / 2, k - 1);
      assert (Pow2(k) - 1) / 2 == Pow2(k - 1) - 1;
    }
  }

  lemma {:induction false} AndHighMask(x: nat, k: nat, n: nat)
    requires k <= n && x < Pow2(n)
    ensures Pow2(k) <= Pow2(n)
    ensures And(x, Pow2(n) - Pow2(k)) == x - Low(x, k)
  {
    Pow2Mono(k, n);
    if k == 0 {
      AndLowMask(x, n);
      ShrZero(x, n);
    } else {
      AndHighMask(x / 2, k - 1, n - 1);
      assert (Pow2(n) - Pow2(k)) / 2 == Pow2(n - 1) - Pow2(k - 1);
    }
  }

  /** `(hi & ~(size - 1)) | (lo & (size - 1))` */
  function MaskMerge(hi: U64, lo: U64, size: U64): nat
    requires size > 0
  {
    Or(And(hi, Not64(size - 1)), And(lo, size - 1))
  }

  lemma MaskMergeIsSplice(hi: U64, lo: U64, k: nat)
    requires k < 64
    ensures Pow2(k) < TWO_64
    ensures MaskMerge(hi, lo, Pow2(k)) == Splice(hi, lo, k)
  {
    hide And, Or, Splice, Low, Shr, Pow2;
    Pow2Of64();
    Pow2Mono(k, 64);
    AndHighMask(hi, k, 64);
    AndLowMask(lo, k);
    SpliceParts(hi, 0, k);
    LowBound(lo, k);
    LowOfZero(k);
    OrIsPlus(hi - Low(hi, k), Low(lo, k), k);
    SpliceParts(hi, lo, k);
  }

  lemma {:induction false} LowOfZero(k: nat)
    ensures Low(0, k) == 0
  {
    if k > 0 { LowOfZero(k - 1); }
  }

  /** The number of consecutive ones at the bottom of `x`. */
  function TrailingOnes(x: nat): nat {
    if x % 2 == 0 then 0 else 1 + TrailingOnes(x / 2)
  }

  lemma {:induction false} XorSelf(x: nat)
    ensures Xor(x, x) == 0
  {
    if x != 0 { XorSelf(x / 2); }
  }

  lemma {:induction false} XorSuccessor(x: nat)
    ensures Xor(x, x + 1) == Pow2(TrailingOnes(x) + 1) - 1
  {
    if x != 0 {
      if x % 2 == 0 {
        assert (x + 1) / 2 == x / 2;
        XorSelf(x / 2);
      } else {
        XorSuccessor(x / 2);
        assert (x + 1) / 2 == x / 2 + 1;
      }
    }
  }
}
