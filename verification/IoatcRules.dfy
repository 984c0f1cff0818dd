/** What the caches are for and what the invalidation commands mean: which entries a command drops, in the words of
    its operands, and which requests an entry answers. */
module IoatcRules {
  import opened Bits
  import opened Common
  import opened PageTables
  import opened TwoStage
  import opened Translate
  import opened Superpages
  import opened Napot
  import opened Iotlb
  import opened Transparency
  import opened TransparentRuns
  import K = DirectoryCaches
  import X = DeviceContexts
  import D = Directories

  // ---------------------------------------------------------------- IOTINVAL

  /** Some page is in the range of the operand and in that of the entry. */
  ghost predicate InOperand(c: Inval, e: TlbEntry) { exists page :: InRange(page, c.addr, c.s) && InRange(page, e.vpn, e.s) }

  /** IOTINVAL.VMA drops an entry exactly if it is one of the host without GV and of the VM named with it, of the
      process named and not global with PSCV, and meets the range named with AV; all else stays as it is. */
  lemma VmaDrops(c: Inval, tlb: seq<TlbEntry>, i: nat)
    requires i < |tlb|
    ensures var (e, e') := (tlb[i], VmaSwept(c, tlb)[i]);
            && e' == e.(valid := e'.valid)
            && (e'.valid <==> e.valid && !(&& (if c.gv then e.tag.gv && e.tag.gscid == c.gscid else !e.tag.gv)
                                           && (c.pscv ==> e.tag.pscv && e.tag.pscid == c.pscid && !e.g)
                                           && (c.av ==> InOperand(c, e))))
  {
    MatchesOperand(c, tlb[i]);
    hide MatchAddressRange, InOperand;
  }

  /** IOTINVAL.GVMA drops every entry of a VM without GV, of the VM named with it, and with GV and AV, of those that
      have no first stage, the ones that meet the range named. What else it drops `Iotlb.GvmaExactIff` says. */
  lemma GvmaDropsThese(c: Inval, tlb: seq<TlbEntry>, g: bool, a: bool, i: nat)
    requires i < |tlb| && tlb[i].valid && tlb[i].tag.gv && (c.gv ==> tlb[i].tag.gscid == c.gscid)
    requires c.gv && c.av && !tlb[i].tag.pscv ==> InOperand(c, tlb[i])
    ensures !GvmaSwept(c, tlb, g, a)[i].valid
  {
    MatchesOperand(c, tlb[i]);
    hide InOperand, GvmaAddr, GscidSeen, AddrSeen, GvmaDrops;
    GvmaLeavesNoMatch(c, tlb, g, a, i);
  }

  lemma MatchesOperand(c: Inval, e: TlbEntry)
    ensures MatchAddressRange(c.addr, c.s, e.vpn, e.s) <==> InOperand(c, e)
    ensures GvmaAddr(c, e) <==> (c.gv && c.av && !e.tag.pscv ==> InOperand(c, e))
  {
    hide MatchAddressRange, InRange;
    MatchIffRangesMeet(c.addr, c.s, e.vpn, e.s);
  }

  /** With flags that start clear the entry in the first slot is dropped for these reasons only. */
  lemma GvmaSparesFirst(c: Inval, tlb: seq<TlbEntry>)
    requires 0 < |tlb| && tlb[0].valid
    requires !tlb[0].tag.gv || (c.gv && tlb[0].tag.gscid != c.gscid) || (c.gv && c.av && !tlb[0].tag.pscv && !InOperand(c, tlb[0]))
    ensures GvmaSwept(c, tlb, false, false)[0].valid
  {
    MatchesOperand(c, tlb[0]);
    hide MatchAddressRange, InOperand;
    assert GscidSeen(c, tlb, 0) == GvmaGscid(c, tlb[0]) && AddrSeen(c, tlb, 0) == GvmaAddr(c, tlb[0]);
  }

  // ---------------------------------------------------------------- IODIR

  /** IODIR.INVAL_DDT drops the entries of the device named, or of all, and of its processes; IODIR.INVAL_PDT just the
      entry of the process named. */
  lemma DirectoryDrops(s: K.State, cmd: K.Inval, i: nat, j: nat)
    requires i < |s.dcs| && j < |s.pcs|
    ensures var (s', e, p) := (K.Invalidated(s, cmd), s.dcs[i], s.pcs[j]);
            && |s'.dcs| == |s.dcs| && |s'.pcs| == |s.pcs| && s'.tree == s.tree && s'.mem == s.mem
            && s'.dcs[i] == e.(valid := s'.dcs[i].valid) && s'.pcs[j] == p.(valid := s'.pcs[j].valid)
            && (s'.dcs[i].valid <==> e.valid && !(cmd.InvalDdt? && (cmd.dv ==> e.key == cmd.id)))
            && (s'.pcs[j].valid <==> p.valid && !(match cmd case InvalDdt(dv, id) => (dv ==> p.key.0 == id)
                                                         case InvalPdt(did, pid) => p.key == (did, pid)))
  {
  }

  // ---------------------------------------------------------------- an entry is used

  /** The entry's leaves hold the rights the request asks for, and leave nothing to set. */
  predicate Answerable(tag: Tag, o: Outcome, req: Request)
    requires o.Done?
  {
    var (v, g) := (o.vpte, o.gpte);
    && (req.exec ==> v.X && g.X) && (req.read ==> v.R && g.R) && (req.write ==> v.W && g.W && v.D && g.D)
    && (tag.pscv ==> if req.supervisor then v.U ==> req.sum && !req.exec else v.U)
  }

  /** A translation that is cached answers the requests for its page without another walk: memory stays as it is,
      and the address is that of the translation with the offset of the request. */
  lemma CachedIsUsed(sp: Space, tlb: seq<TlbEntry>, slot: nat, tag: Tag, gscid: nat, iova: U64, o: Outcome, req: Request, m: Store,
                     fill: bool, slot': nat, time: nat)
    requires ValidSpace(sp) && o.Done? && 12 <= o.lg <= 56 && o.pa < 0x100_0000_0000_0000
    requires slot < |tlb| && FirstMatch(tlb, tag, req.iova / PAGE_SIZE) == |tlb|
    requires SameBlock(req.iova, iova, o.lg) && Answerable(tag, o, req)
    ensures var (shown, _, n) := CachedAsk(sp, Filled(tlb, slot, EntryOf(tag, iova, o)), m, tag, gscid, req, fill, slot', time);
            && n == m && shown.Granted? && shown.pa == Splice(o.pa, req.iova, o.lg)
            && shown.pageSize == Pow2(o.lg) && shown.pbmt == o.vpte.PBMT
  {
    hide EntryOf, Splice, MatchAddressRange, SameBlock, Pow2, LookupAt, HitAt, Translation, Answerable, Matches, EntryLg, Holds, Refilled;
    var e, page := EntryOf(tag, iova, o), req.iova / PAGE_SIZE;
    var used := Refilled(e, tlb[slot].lru);
    assert Holds(e, req.iova);
    UsedMatches(e, tlb[slot].lru, req.iova);
    OnlyMatch(tlb, slot, used, tag, page);
    EntryAnswers(tag, iova, o, tlb[slot].lru, req);
  }

  lemma UsedMatches(e: TlbEntry, lru: nat, iova: U64)
    requires Holds(e, iova)
    ensures Matches(Refilled(e, lru), e.tag, iova / PAGE_SIZE)
  {
    MatchMeaning(iova / PAGE_SIZE, false, e.vpn, e.s);
    hide MatchAddressRange;
  }

  lemma EntryAnswers(tag: Tag, iova: U64, o: Outcome, lru: nat, req: Request)
    requires o.Done? && 12 <= o.lg <= 56 && o.pa < 0x100_0000_0000_0000 && Answerable(tag, o, req)
    ensures var h := LookupAt(Refilled(EntryOf(tag, iova, o), lru), req);
            h.Hit? && h.pa == Splice(o.pa, req.iova, o.lg) && h.pageSize == Pow2(o.lg) && h.pbmt == o.vpte.PBMT
  {
    var e := EntryOf(tag, iova, o);
    EntryFields(tag, iova, o);
    hide EntryOf, Splice, SameBlock, Pow2;
    SameLg(e, lru);
    SameSplice(e.ppn * PAGE_SIZE, o.pa, req.iova, o.lg);
  }

  lemma SameLg(e: TlbEntry, lru: nat)
    ensures EntryLg(Refilled(e, lru)) == EntryLg(e)
  {
  }

  lemma SameSplice(x: nat, y: nat, lo: nat, k: nat)
    requires SameBlock(x, y, k)
    ensures Splice(x, lo, k) == Splice(y, lo, k)
  {
    SpliceDepends(x, y, lo, k);
  }

  /** The only entry that matches is the first to. */
  lemma OnlyMatch(tlb: seq<TlbEntry>, slot: nat, e: TlbEntry, tag: Tag, page: PageNumber)
    requires slot < |tlb| && FirstMatch(tlb, tag, page) == |tlb| && Matches(e, tag, page)
    ensures FirstMatch(tlb[slot := e], tag, page) == slot
  {
    hide Matches;
    FirstMatchUnique(tlb[slot := e], tag, page, slot);
  }

  // ---------------------------------------------------------------- what a lookup leaves

  /** The first entry that matches is as old as the lookup, and is dropped if the lookup could not use it; no other
      entry changes. */
  lemma LookupAges(tlb: seq<TlbEntry>, tag: Tag, req: Request, time: nat, j: nat)
    requires j < |tlb|
    ensures var (t, page) := (LookedUp(tlb, tag, req, time), req.iova / PAGE_SIZE);
            |t| == |tlb| &&
            if Matches(tlb[j], tag, page) && (forall k | 0 <= k < j :: !Matches(tlb[k], tag, page))
            then t[j] == tlb[j].(lru := time, valid := !LookupIn(tlb, tag, req).Miss?)
            else t[j] == tlb[j]
  {
    hide Matches, LookupAt;
  }

  /** So an entry that a request could not use is no longer in the way of what the walk for it finds. */
  lemma StaleIsDropped(tlb: seq<TlbEntry>, tag: Tag, req: Request, time: nat)
    requires LookupIn(tlb, tag, req).Miss?
    requires var page := req.iova / PAGE_SIZE;
             forall j, k | 0 <= j < |tlb| && 0 <= k < |tlb| && Matches(tlb[j], tag, page) && Matches(tlb[k], tag, page) :: j == k
    ensures FirstMatch(LookedUp(tlb, tag, req, time), tag, req.iova / PAGE_SIZE) == |tlb|
  {
    hide MatchAddressRange, LookupAt;
    var t := LookedUp(tlb, tag, req, time);
    var i := FirstMatch(t, tag, req.iova / PAGE_SIZE);
    if i < |t| { LookupAges(tlb, tag, req, time, i); }
  }

  /** A device that is located is in the slot given, in the place of what was there; one that is cached is as old as
      the request. No other entry changes. */
  lemma DeviceIsCached(c: X.Config, t: D.Tree, dcs: seq<K.Entry<nat, X.DeviceContext>>, id: nat, m: Store, time: nat, slot: nat, j: nat)
    requires D.ValidTree(t) && slot < |dcs| && j < |dcs|
    ensures var (l, r) := (D.LocateDevice(c, t, id, m), K.DevicesAfter(c, t, dcs, id, m, time, slot));
            var cached := exists k :: 0 <= k < |dcs| && K.HoldsKey(dcs[k], id);
            var first := K.HoldsKey(dcs[j], id) && forall k | 0 <= k < j :: !K.HoldsKey(dcs[k], id);
            |r| == |dcs| && r[j] == if cached then (if first then dcs[j].(lru := time) else dcs[j])
                                    else if l.Found? && j == slot then K.Entry(true, id, l.ctx, dcs[j].lru)
                                    else dcs[j]
  {
    hide K.HoldsKey;
  }
}
