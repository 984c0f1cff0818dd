/** The IOTLB: lookup, fill, and the IOTINVAL commands, updating the entries in place. */
module Iotlb {
  import opened Bits
  import opened Common
  import opened PageTables
  import opened TwoStage
  import opened Napot

  const TLB_SIZE: nat := 2

  /** An address space: VM (GV, GSCID) and process (PSCV, PSCID) identifiers and their valid bits. */
  datatype Tag = Tag(gv: bool, gscid: nat, pscv: bool, pscid: nat)

  datatype TlbEntry = TlbEntry(
    valid: bool, tag: Tag, vpn: PageNumber, s: bool,
    vsR: bool, vsW: bool, vsX: bool, vsD: bool, u: bool, g: bool, pbmt: nat,
    gR: bool, gW: bool, gX: bool, gD: bool,
    ppn: Ppn, lru: nat)

  datatype Lookup = Miss | Fault(cause: nat) | Hit(pa: nat, pageSize: nat, pbmt: nat, vsR: bool, vsX: bool, gR: bool, gX: bool)

  // ---------------------------------------------------------------- what the operations mean

  predicate Matches(e: TlbEntry, tag: Tag, page: PageNumber) {
    e.valid && e.tag == tag && MatchAddressRange(page, false, e.vpn, e.s)
  }

  /** The first matching entry, or the number of entries. */
  function FirstMatch(tlb: seq<TlbEntry>, tag: Tag, page: PageNumber): (i: nat)
    ensures i <= |tlb|
    ensures forall j | 0 <= j < i :: !Matches(tlb[j], tag, page)
    ensures i < |tlb| ==> Matches(tlb[i], tag, page)
  {
    if tlb == [] || Matches(tlb[0], tag, page) then 0 else 1 + FirstMatch(tlb[1..], tag, page)
  }

  predicate VsDenies(e: TlbEntry, req: Request) {
    || (req.check && ((req.exec && !e.vsX) || (req.read && !e.vsR) || (req.write && !e.vsW)))
    || (e.tag.pscv && !req.supervisor && !e.u)
    || (e.tag.pscv && req.supervisor && e.u && (req.exec || !req.sum))
  }

  /** The hit cannot answer: a second-stage denial has to be found again by a walk, which knows the
      guest address to report, and a write needs both dirty bits. */
  predicate MustWalk(e: TlbEntry, req: Request) {
    || (req.exec && !e.gX) || (req.read && !e.gR) || (req.write && !e.gW)
    || (req.write && !(e.vsD && e.gD))
  }

  function PageFaultCause(req: Request): nat { if req.exec then 12 else if req.read then 13 else 15 }

  /** The logarithm of the size an entry holds. */
  function EntryLg(e: TlbEntry): nat { PAGE_SHIFT + RangeBits(e.ppn, e.s) }

  function HitAt(e: TlbEntry, req: Request): Lookup {
    Hit(Splice(e.ppn * PAGE_SIZE, req.iova, EntryLg(e)), Pow2(EntryLg(e)), e.pbmt, e.vsR, e.vsX, e.gR, e.gX)
  }

  function LookupAt(e: TlbEntry, req: Request): Lookup {
    if VsDenies(e, req) then Fault(PageFaultCause(req))
    else if MustWalk(e, req) then Miss
    else HitAt(e, req)
  }

  function LookupIn(tlb: seq<TlbEntry>, tag: Tag, req: Request): Lookup {
    var i := FirstMatch(tlb, tag, req.iova / PAGE_SIZE);
    if i == |tlb| then Miss else LookupAt(tlb[i], req)
  }

  /** A lookup ages the matching entry and drops it when a walk must be made. */
  function LookedUp(tlb: seq<TlbEntry>, tag: Tag, req: Request, time: nat): seq<TlbEntry> {
    var i := FirstMatch(tlb, tag, req.iova / PAGE_SIZE);
    if i == |tlb| then tlb else tlb[i := tlb[i].(lru := time, valid := !LookupAt(tlb[i], req).Miss?)]
  }

  /** The slot a fill replaces: the first invalid one, or else the first least recently used. */
  predicate IsVictim(tlb: seq<TlbEntry>, i: nat) {
    && i < |tlb|
    && (!tlb[i].valid ==> forall j | 0 <= j < i :: tlb[j].valid)
    && (tlb[i].valid ==> (forall j | 0 <= j < |tlb| :: tlb[j].valid && tlb[i].lru <= tlb[j].lru) &&
                         (forall j | 0 <= j < i :: tlb[i].lru < tlb[j].lru))
  }

  /** The operands of IOTINVAL.VMA and IOTINVAL.GVMA. */
  datatype Inval = Inval(gv: bool, av: bool, pscv: bool, gscid: nat, pscid: nat, addr: PageNumber, s: bool)

  predicate VmaMatches(c: Inval, e: TlbEntry) {
    && (if c.gv then e.tag.gv && e.tag.gscid == c.gscid else !e.tag.gv)
    && (c.pscv ==> e.tag.pscv && e.tag.pscid == c.pscid && !e.g)
    && (c.av ==> MatchAddressRange(c.addr, c.s, e.vpn, e.s))
  }

  predicate GvmaGscid(c: Inval, e: TlbEntry) {
    e.tag.gv && (c.gv ==> e.tag.gscid == c.gscid)
  }

  predicate GvmaAddr(c: Inval, e: TlbEntry) {
    e.tag.pscv || !c.av || !c.gv || MatchAddressRange(c.addr, c.s, e.vpn, e.s)
  }

  predicate GvmaMatches(c: Inval, e: TlbEntry) { GvmaGscid(c, e) && GvmaAddr(c, e) }

  function DropIf(e: TlbEntry, drop: bool): TlbEntry { e.(valid := e.valid && !drop) }

  /** IOTINVAL.VMA drops exactly the entries it matches. */
  function VmaSwept(c: Inval, tlb: seq<TlbEntry>): (r: seq<TlbEntry>)
    ensures |r| == |tlb| && forall i | 0 <= i < |tlb| :: r[i] == DropIf(tlb[i], VmaMatches(c, tlb[i]))
  {
    seq(|tlb|, i requires 0 <= i < |tlb| => DropIf(tlb[i], VmaMatches(c, tlb[i])))
  }

  /** Some valid entry up to `i` has satisfied the GSCID test (or the address test) of IOTINVAL.GVMA. */
  predicate GscidSeen(c: Inval, tlb: seq<TlbEntry>, i: nat)
    requires i < |tlb|
  {
    exists j :: 0 <= j <= i && tlb[j].valid && GvmaGscid(c, tlb[j])
  }

  predicate AddrSeen(c: Inval, tlb: seq<TlbEntry>, i: nat)
    requires i < |tlb|
  {
    exists j :: 0 <= j <= i && tlb[j].valid && GvmaAddr(c, tlb[j])
  }

  /** IOTINVAL.GVMA as coded: its two match flags start as `g` and `a`, whatever the stack held, and
      are not cleared from one entry to the next. */
  predicate GvmaDrops(c: Inval, tlb: seq<TlbEntry>, g: bool, a: bool, i: nat)
    requires i < |tlb|
  {
    (g || GscidSeen(c, tlb, i)) && (a || AddrSeen(c, tlb, i))
  }

  function GvmaSwept(c: Inval, tlb: seq<TlbEntry>, g: bool, a: bool): (r: seq<TlbEntry>)
    ensures |r| == |tlb| && forall i | 0 <= i < |tlb| :: r[i] == DropIf(tlb[i], GvmaDrops(c, tlb, g, a, i))
  {
    seq(|tlb|, i requires 0 <= i < |tlb| => DropIf(tlb[i], GvmaDrops(c, tlb, g, a, i)))
  }

  /** No entry that matches survives, and nothing else about an entry changes. */
  lemma GvmaLeavesNoMatch(c: Inval, tlb: seq<TlbEntry>, g: bool, a: bool, i: nat)
    requires i < |tlb|
    ensures GvmaSwept(c, tlb, g, a)[i].valid ==> tlb[i].valid && !GvmaMatches(c, tlb[i])
  {
  }

  /** The command is meant to drop the matching entries only. It does so exactly when no valid entry that
      does not match comes at or after entries that between them passed both tests; a flag that starts
      set counts as a test passed. */
  lemma GvmaExactIff(c: Inval, tlb: seq<TlbEntry>, g: bool, a: bool)
    ensures (forall i | 0 <= i < |tlb| :: GvmaSwept(c, tlb, g, a)[i] == DropIf(tlb[i], GvmaMatches(c, tlb[i]))) <==>
            (forall i | 0 <= i < |tlb| && tlb[i].valid && (g || GscidSeen(c, tlb, i)) && (a || AddrSeen(c, tlb, i)) ::
               GvmaMatches(c, tlb[i]))
  {
    var r := GvmaSwept(c, tlb, g, a);
    forall i | 0 <= i < |tlb|
      ensures r[i] == DropIf(tlb[i], GvmaMatches(c, tlb[i])) <==>
              (tlb[i].valid && (g || GscidSeen(c, tlb, i)) && (a || AddrSeen(c, tlb, i)) ==> GvmaMatches(c, tlb[i]))
    {
      if tlb[i].valid && GvmaMatches(c, tlb[i]) {
        assert GscidSeen(c, tlb, i) && AddrSeen(c, tlb, i);
      }
    }
  }

  /** An entry of another VM after a matching one is dropped with it. */
  lemma GvmaDropsTooMuch(c: Inval, e: TlbEntry)
    requires c.gv && !c.av && e.tag.gv && e.tag.gscid == c.gscid && e.valid
    ensures var other := e.(tag := e.tag.(gscid := c.gscid + 1));
            !GvmaMatches(c, other) && !GvmaSwept(c, [e, other], false, false)[1].valid
  {
    var tlb := [e, e.(tag := e.tag.(gscid := c.gscid + 1))];
    assert tlb[0].valid && GvmaGscid(c, tlb[0]) && GvmaAddr(c, tlb[0]);
    assert GscidSeen(c, tlb, 1) && AddrSeen(c, tlb, 1);
  }

  // ---------------------------------------------------------------- the arrays and loops

  class IoTlb {
    const entries: array<TlbEntry>
    var lruTime: nat

    ghost predicate Valid() reads this, entries {
      entries.Length == TLB_SIZE && forall i | 0 <= i < entries.Length :: entries[i].lru < 0x1_0000_0000
    }

    constructor (blank: TlbEntry)
      requires !blank.valid && blank.lru < 0x1_0000_0000
      ensures Valid() && fresh(entries) && forall i | 0 <= i < TLB_SIZE :: entries[i] == blank
    {
      entries := new TlbEntry[TLB_SIZE](_ => blank);
      lruTime := 0;
    }

    /** `lookup_ioatc_iotlb` */
    method LookupIotlb(tag: Tag, req: Request) returns (r: Lookup)
      requires Valid() && lruTime < 0x1_0000_0000
      modifies this`lruTime, entries
      ensures Valid() && lruTime < 0x1_0000_0000
      ensures r == LookupIn(old(entries[..]), tag, req)
      ensures entries[..] == LookedUp(old(entries[..]), tag, req, old(lruTime))
    {
      hide MatchAddressRange, LookupAt;
      var page: PageNumber := req.iova / PAGE_SIZE;
      var hit := 0;
      while hit < entries.Length && !Matches(entries[hit], tag, page)
        invariant hit <= entries.Length
        invariant forall j | 0 <= j < hit :: !Matches(entries[j], tag, page)
      {
        hit := hit + 1;
      }
      FirstMatchUnique(entries[..], tag, page, hit);
      if hit == entries.Length { return Miss; }
      var e := entries[hit];
      entries[hit] := e.(lru := lruTime);
      lruTime := (lruTime + 1) % 0x1_0000_0000;
      r := JudgeHit(e, req);
      if r.Miss? { entries[hit] := entries[hit].(valid := false); }
    }

    /** What a matching entry says to the request */
    static method JudgeHit(e: TlbEntry, req: Request) returns (r: Lookup)
      ensures r == LookupAt(e, req)
    {
      hide HitAt;
      if req.check {
        if (req.exec && !e.vsX) || (req.read && !e.vsR) || (req.write && !e.vsW) { return Fault(PageFaultCause(req)); }
      }
      if e.tag.pscv && !req.supervisor && !e.u { return Fault(PageFaultCause(req)); }
      if e.tag.pscv && req.exec && req.supervisor && e.u { return Fault(PageFaultCause(req)); }
      if e.tag.pscv && req.supervisor && !req.exec && !req.sum && e.u { return Fault(PageFaultCause(req)); }
      if MustWalk(e, req) { return Miss; }
      r := DecodeHit(e, req);
    }

    /** `cache_ioatc_iotlb` */
    method CacheIotlb(e: TlbEntry) returns (slot: nat)
      requires Valid()
      modifies entries
      ensures Valid() && IsVictim(old(entries[..]), slot)
      ensures entries[..] == Filled(old(entries[..]), slot, e)
    {
      hide Refilled;
      slot := FirstInvalid();
      if slot == entries.Length { slot := LeastRecent(); }
      RefilledAge(e, entries[slot].lru);
      entries[slot] := Refilled(e, entries[slot].lru);
    }

    method FirstInvalid() returns (i: nat)
      requires Valid()
      ensures i <= entries.Length && (forall j | 0 <= j < i :: entries[j].valid) && (i < entries.Length ==> !entries[i].valid)
    {
      i := 0;
      while i < entries.Length && entries[i].valid
        invariant i <= entries.Length && forall j | 0 <= j < i :: entries[j].valid
      {
        i := i + 1;
      }
    }

    /** The slot starts at 0, for entries as old as the counter can tell. */
    method LeastRecent() returns (replace: nat)
      requires Valid()
      ensures replace < entries.Length
      ensures forall j | 0 <= j < entries.Length :: entries[replace].lru <= entries[j].lru
      ensures forall j | 0 <= j < replace :: entries[replace].lru < entries[j].lru
    {
      var lru, i := 0xFFFF_FFFF, 0;
      replace := 0;
      while i < entries.Length
        invariant i <= entries.Length && replace < entries.Length && lru <= 0xFFFF_FFFF
        invariant forall j | 0 <= j < i :: lru <= entries[j].lru
        invariant forall j | 0 <= j < replace :: lru < entries[j].lru
        invariant if lru == 0xFFFF_FFFF then replace == 0 else replace < i && entries[replace].lru == lru
      {
        if entries[i].lru < lru { replace, lru := i, entries[i].lru; }
        i := i + 1;
      }
    }

    /** `do_iotinval_vma` */
    method InvalVma(c: Inval)
      requires Valid()
      modifies entries
      ensures Valid()
      ensures entries[..] == VmaSwept(c, old(entries[..]))
    {
      hide VmaMatches;
      var i := 0;
      while i < entries.Length
        invariant i <= entries.Length
        invariant forall j | 0 <= j < i :: entries[j] == DropIf(old(entries[j]), VmaMatches(c, old(entries[j])))
        invariant forall j | i <= j < entries.Length :: entries[j] == old(entries[j])
      {
        var matches := VmaTests(c, entries[i]);
        if matches { entries[i] := entries[i].(valid := false); }
        i := i + 1;
      }
    }

    static method VmaTests(c: Inval, e: TlbEntry) returns (matches: bool)
      ensures matches == VmaMatches(c, e)
    {
      var gscidMatch := (!c.gv && !e.tag.gv) || (c.gv && e.tag.gv && e.tag.gscid == c.gscid);
      var pscidMatch := !c.pscv || (c.pscv && e.tag.pscv && e.tag.pscid == c.pscid);
      var globalMatch := !c.pscv || (c.pscv && !e.g);
      var addrMatch := !c.av || (c.av && MatchAddressRange(c.addr, c.s, e.vpn, e.s));
      matches := gscidMatch && pscidMatch && addrMatch && globalMatch;
    }

    /** `do_iotinval_gvma`; `gscidMatch` and `addrMatch` enter uninitialised. */
    method InvalGvma(c: Inval, gscid0: bool, addr0: bool)
      requires Valid()
      modifies entries
      ensures Valid()
      ensures entries[..] == GvmaSwept(c, old(entries[..]), gscid0, addr0)
    {
      hide GvmaGscid, GvmaAddr, GscidSeen, AddrSeen, GvmaDrops;
      var gscidMatch, addrMatch := gscid0, addr0;
      ghost var tlb := entries[..];
      var i := 0;
      while i < entries.Length
        invariant i <= entries.Length
        invariant gscidMatch <==> gscid0 || (i > 0 && GscidSeen(c, tlb, i - 1))
        invariant addrMatch <==> addr0 || (i > 0 && AddrSeen(c, tlb, i - 1))
        invariant forall j | 0 <= j < i :: entries[j] == DropIf(tlb[j], GvmaDrops(c, tlb, gscid0, addr0, j))
        invariant forall j | i <= j < entries.Length :: entries[j] == tlb[j]
      {
        SeenSoFar(c, tlb, i);
        DropsMeans(c, tlb, gscid0, addr0, i);
        if entries[i].valid {
          var inVm, inRange := GvmaTests(c, entries[i]);
          if inVm { gscidMatch := true; }
          if inRange { addrMatch := true; }
          if gscidMatch && addrMatch { entries[i] := entries[i].(valid := false); }
        }
        i := i + 1;
      }
    }

    static method GvmaTests(c: Inval, e: TlbEntry) returns (inVm: bool, inRange: bool)
      ensures inVm == GvmaGscid(c, e) && inRange == GvmaAddr(c, e)
    {
      inVm := (!c.gv && e.tag.gv) || (c.gv && e.tag.gv && e.tag.gscid == c.gscid);
      inRange := e.tag.pscv || !c.av || !c.gv || (!e.tag.pscv && c.av && MatchAddressRange(c.addr, c.s, e.vpn, e.s));
    }
  }

  function Filled(tlb: seq<TlbEntry>, i: nat, e: TlbEntry): seq<TlbEntry> {
    if i < |tlb| then tlb[i := Refilled(e, tlb[i].lru)] else tlb
  }

  /** A fill leaves the slot its age. */
  function Refilled(e: TlbEntry, lru: nat): TlbEntry { e.(valid := true, lru := lru) }

  lemma RefilledAge(e: TlbEntry, lru: nat)
    ensures Refilled(e, lru).lru == lru && Refilled(e, lru).valid
  {
  }

  lemma DropsMeans(c: Inval, tlb: seq<TlbEntry>, g: bool, a: bool, i: nat)
    requires i < |tlb|
    ensures GvmaDrops(c, tlb, g, a, i) == ((g || GscidSeen(c, tlb, i)) && (a || AddrSeen(c, tlb, i)))
  {
  }

  lemma SeenSoFar(c: Inval, tlb: seq<TlbEntry>, i: nat)
    requires i < |tlb|
    ensures GscidSeen(c, tlb, i) <==> (i > 0 && GscidSeen(c, tlb, i - 1)) || (tlb[i].valid && GvmaGscid(c, tlb[i]))
    ensures AddrSeen(c, tlb, i) <==> (i > 0 && AddrSeen(c, tlb, i - 1)) || (tlb[i].valid && GvmaAddr(c, tlb[i]))
  {
  }

  lemma FirstMatchUnique(tlb: seq<TlbEntry>, tag: Tag, page: PageNumber, i: nat)
    requires i <= |tlb| && (forall j | 0 <= j < i :: !Matches(tlb[j], tag, page))
    requires i < |tlb| ==> Matches(tlb[i], tag, page)
    ensures FirstMatch(tlb, tag, page) == i
  {
    hide Matches;
  }

  /** `page_sz` and `resp_pa` from the NAPOT coding of the PPN. */
  method DecodeHit(e: TlbEntry, req: Request) returns (r: Lookup)
    ensures r == HitAt(e, req)
  {
    hide MaskMerge, Splice;
    EntrySize(e);
    var pages := if !e.s then 1 else Xor(e.ppn, e.ppn + 1) + 1;
    var pageSize := pages * PAGE_SIZE;
    MaskMergeIsSplice(e.ppn * PAGE_SIZE, req.iova, EntryLg(e));
    r := Hit(MaskMerge(e.ppn * PAGE_SIZE, req.iova, pageSize), pageSize, e.pbmt, e.vsR, e.vsX, e.gR, e.gX);
  }

  lemma EntrySize(e: TlbEntry)
    ensures EntryLg(e) <= 57
    ensures Pow2(EntryLg(e)) == (if !e.s then 1 else Xor(e.ppn, e.ppn + 1) + 1) * PAGE_SIZE
  {
    hide Xor;
    SmallPowers();
    Pow2Of64();
    assert Pow2(44) == 16 * Pow2(40);
    XorSuccessor(e.ppn);
    TrailingOnesBound(e.ppn, 44);
    if e.s { Pow2Of12More(TrailingOnes(e.ppn) + 1); }
  }

  lemma Pow2Of12More(k: nat)
    ensures Pow2(12 + k) == PAGE_SIZE * Pow2(k)
  {
    Pow2Plus8(k + 4);
    assert Pow2(k + 4) == 2 * Pow2(k + 3) && Pow2(k + 3) == 2 * Pow2(k + 2);
    assert Pow2(k + 2) == 2 * Pow2(k + 1) && Pow2(k + 1) == 2 * Pow2(k);
  }
}
