/** The test for device ids wider than the directory: when keeping its index fields in bytes makes it
    pass one, and what becomes of a request that it passes. */
module DeviceIds {
  import opened Bits
  import opened Common
  import opened PageTables
  import opened DeviceContexts
  import opened Directories
  import opened DirectoryCaches

  /** `ddtp.iommu_mode` */
  datatype DirectoryMode = Off | DirectBare | Levels(n: nat)

  /** The index fields of a device id as the code keeps them, each in one byte. */
  function Ddi(i: nat, extended: bool, id: nat): nat {
    match i
    case 0 => if extended then GetBits(5, 0, id) else GetBits(6, 0, id)
    case 1 => Low(if extended then GetBits(14, 6, id) else GetBits(15, 7, id), 8)
    case _ => Low(if extended then GetBits(23, 15, id) else GetBits(23, 16, id), 8)
  }

  predicate TooWide(n: nat, extended: bool, id: nat) {
    (n == 2 && Ddi(2, extended, id) != 0) || (n == 1 && (Ddi(2, extended, id) != 0 || Ddi(1, extended, id) != 0))
  }

  /** The id has bits above the levels of the directory: the test with the fields of section 2.3 of the
      RISC-V IOMMU Architecture Specification, which `DeviceIndex` has. */
  predicate Wider(n: nat, extended: bool, id: nat) {
    || (n == 2 && DeviceIndex(extended, 2, id) != 0)
    || (n == 1 && (DeviceIndex(extended, 2, id) != 0 || DeviceIndex(extended, 1, id) != 0))
  }

  lemma ByteOfField(x: nat)
    requires x < 512
    ensures Low(x, 8) == 0 <==> x == 0 || x == 256
  {
    hide Low, Shr, Pow2;
    LowIsRemainder(x, 8);
    EightBits();
  }

  lemma EightBits()
    ensures Pow2(8) == 256 && Pow2(9) == 512
  {
    Pow2Plus8(0);
    Pow2Plus8(1);
    assert Pow2(1) == 2;
  }

  lemma FieldsFit(extended: bool, id: nat)
    ensures DeviceIndex(extended, 1, id) < 512 && DeviceIndex(extended, 2, id) < 512
  {
    EightBits();
    if extended { FieldBound(14, 6, id); FieldBound(23, 15, id); } else { FieldBound(15, 7, id); FieldBound(23, 16, id); }
    hide GetBits, Pow2;
  }

  /** Keeping nine-bit fields in bytes makes the code admit an id that is too wide exactly when all
      the fields it tests are 0 or 0x100 and one is 0x100. */
  lemma WidthTestExactIff(n: nat, extended: bool, id: nat)
    ensures TooWide(n, extended, id) ==> Wider(n, extended, id)
    ensures (TooWide(n, extended, id) <==> Wider(n, extended, id)) <==>
            var (f1, f2) := (DeviceIndex(extended, 1, id), DeviceIndex(extended, 2, id));
            !((n == 2 && f2 == 256) || (n == 1 && (f1 == 0 || f1 == 256) && (f2 == 0 || f2 == 256) && f1 + f2 > 0))
  {
    hide GetBits, Low;
    FieldsFit(extended, id);
    ByteOfField(DeviceIndex(extended, 1, id));
    ByteOfField(DeviceIndex(extended, 2, id));
  }

  /** An id it wrongly admits: 0x8000, for a directory of one level in the base format. */
  lemma AdmittedThoughWider()
    ensures !TooWide(1, false, 0x8000) && Wider(1, false, 0x8000)
  {
    assert Pow2(7) == 128 && Pow2(15) == 0x8000 && Pow2(16) == 0x1_0000 by { Pow2Plus8(0); Pow2Plus8(7); Pow2Plus8(8); }
    EightBits();
    hide Low, Shr, Pow2;
    ShrOfMultiple(256, 7, 0);
    ShrZero(0x8000, 16);
    LowIsRemainder(256, 9);
    LowIsRemainder(256, 8);
    LowIsRemainder(0, 8);
  }

  // ---------------------------------------------------------------- the width

  /** For ids of 24 bits the fields tell exactly the ids that fit. */
  lemma WiderMeaning(c: Config, t: Tree, id: nat)
    requires ValidTree(t) && id < 0x100_0000
    ensures Wider(t.levels, c.caps.msiFlat, id) <==> !IdFits(c, t, id)
  {
    assert Pow2(24) == 0x100_0000 by { Pow2Plus8(0); Pow2Plus8(8); Pow2Plus8(16); }
    var f, k := c.caps.msiFlat, if c.caps.msiFlat then 6 else 7;
    hide Low, Shr, Pow2;
    TopField(id, k + 9, 24);
    if t.levels == 1 {
      ShrShr(id, k, 9);
      ShrZero(Shr(id, k), 9);
      ShrZero(id, k);
      LowZero(9);
    } else if t.levels == 2 {
      ShrZero(id, k + 9);
    }
  }

  lemma LowZero(k: nat)
    ensures Low(0, k) == 0
  {
    LowOfZero(k);
  }

  /** The highest field is all the bits from its lowest up. */
  lemma TopField(x: nat, k: nat, n: nat)
    requires k <= n && x < Pow2(n)
    ensures Low(Shr(x, k), n - k) == Shr(x, k)
  {
    hide Low, Shr, Pow2;
    ShrShr(x, k, n - k);
    ShrZero(x, n);
    ShrZero(Shr(x, k), n - k);
  }

  // ---------------------------------------------------------------- what becomes of a wider id

  /** The walk looks at the low bits only: whatever is admitted is located as the device of its low bits. */
  lemma LocatedByLowBits(c: Config, t: Tree, id: nat, m: Store)
    requires ValidTree(t)
    ensures LocateDevice(c, t, id, m) == LocateDevice(c, t, Low(id, IdBits(c, t.levels)), m)
  {
    hide DeviceIndex, LocateDeviceFrom, Low;
    var low := Low(id, IdBits(c, t.levels));
    forall i: nat | i < t.levels ensures DeviceIndex(c.caps.msiFlat, i, low) == DeviceIndex(c.caps.msiFlat, i, id) {
      IndexOfLow(c, t.levels, i, id);
    }
    SameIndices(c, t, id, low, t.levels - 1, t.root * PAGE_SIZE, m);
  }

  lemma {:induction false} SameIndices(c: Config, t: Tree, x: nat, y: nat, i: nat, a: nat, m: Store)
    requires forall k: nat | k <= i :: DeviceIndex(c.caps.msiFlat, k, x) == DeviceIndex(c.caps.msiFlat, k, y)
    ensures LocateDeviceFrom(c, t, x, i, a, m) == LocateDeviceFrom(c, t, y, i, a, m)
    decreases i
  {
    hide DeviceIndex, Misconfigured, Pow2, LoadStatus;
    if i > 0 {
      var e := EntryIn(t.ddtes, a + DeviceIndex(c.caps.msiFlat, i, x) * 8);
      SameIndices(c, t, x, y, i - 1, e.ppn * PAGE_SIZE, m);
    }
  }

  lemma IndexOfLow(c: Config, levels: nat, i: nat, id: nat)
    requires i < levels <= 3
    ensures DeviceIndex(c.caps.msiFlat, i, Low(id, IdBits(c, levels))) == DeviceIndex(c.caps.msiFlat, i, id)
  {
    hide Low, Shr;
    var n := IdBits(c, levels);
    FieldOfLow(id, n, 5, 0);
    FieldOfLow(id, n, 6, 0);
    FieldOfLow(id, n, 14, 6);
    FieldOfLow(id, n, 15, 7);
    FieldOfLow(id, n, 23, 15);
    FieldOfLow(id, n, 23, 16);
  }

  lemma FieldOfLow(x: nat, n: nat, hi: nat, lo: nat)
    requires lo <= hi
    ensures hi < n ==> GetBits(hi, lo, Low(x, n)) == GetBits(hi, lo, x)
  {
    hide Low, Shr;
    if hi < n {
      ShrOfLow(x, n, lo);
      LowLow(Shr(x, lo), hi - lo + 1, n - lo);
    }
  }

  /** Its entry in the cache, kept under the wide id, survives the command that names the device it was
      located as: a later request with the wide id is answered with the old context. */
  lemma AliasOutlivesCommand(c: Config, s: State, id: nat, t': Tree, m': Store, time: nat, slotD: nat, slotP: nat)
    requires ValidTree(s.tree) && ValidTree(t') && FirstOf(s.dcs, id) < |s.dcs|
    requires id != Low(id, IdBits(c, s.tree.levels))
    ensures var s1 := Invalidated(s, InvalDdt(true, Low(id, IdBits(c, s.tree.levels)))).(tree := t', mem := m');
            CachedAsk(c, s1, id, None, time, slotD, slotP).0 == DeviceOnly(s.dcs[FirstOf(s.dcs, id)].ctx)
  {
    hide Low, FirstOf;
    var cmd := InvalDdt(true, Low(id, IdBits(c, s.tree.levels)));
    var s1 := Invalidated(s, cmd);
    var i := FirstOf(s.dcs, id);
    forall j | 0 <= j < |s.dcs| ensures HoldsKey(s1.dcs[j], id) == HoldsKey(s.dcs[j], id) {}
    FirstIs(s1.dcs, id, i);
  }
}
