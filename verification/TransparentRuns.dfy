/** Runs of requests, page-table edits and invalidations, with and without the IOTLB. */
module TransparentRuns {
  import opened Bits
  import opened Common
  import opened PageTables
  import opened SecondStage
  import opened TwoStage
  import opened Translate
  import opened AdUpdates
  import opened Superpages
  import opened Napot
  import opened Iotlb
  import opened Transparency

  /** Each tag names one pair of page tables; GSCID is 0 in the tag of a space without a VM. */
  predicate ValidSpaces(spaces: map<Tag, Space>) {
    forall t | t in spaces ::
      && ValidSpace(spaces[t]) && PagesFit(spaces[t])
      && (t.pscv <==> spaces[t].vmode.Paged?) && (t.gv <==> spaces[t].gmode.Paged?)
      && (!t.gv ==> t.gscid == 0)
  }

  ghost predicate TlbOk(tlb: seq<TlbEntry>, spaces: map<Tag, Space>, m: Store) {
    forall i | 0 <= i < |tlb| && tlb[i].valid && tlb[i].tag in spaces :: EntryOk(tlb[i], spaces[tlb[i].tag], m)
  }

  datatype Command = Vma(c: Inval) | Gvma(c: Inval, gscid0: bool, addr0: bool)

  function Swept(cmd: Command, tlb: seq<TlbEntry>): seq<TlbEntry> {
    match cmd
    case Vma(c) => VmaSwept(c, tlb)
    case Gvma(c, g, a) => GvmaSwept(c, tlb, g, a)
  }

  /** A request under `tag`; `gscid` is the GSCID field of the device context, which a fill records
      even when there is no VM. An edit changes page-table words and is followed by a command. */
  datatype Step =
    | Ask(tag: Tag, gscid: nat, req: Request, fill: bool, slot: nat, time: nat)
    | Edit(words: map<Slot, Pte>, cmd: Command)

  // ---------------------------------------------------------------- the two machines

  /** A request on the machine with the IOTLB; `slot` is the entry a fill replaces. */
  function CachedAsk(sp: Space, tlb: seq<TlbEntry>, m: Store, tag: Tag, gscid: nat, req: Request, fill: bool, slot: nat, time: nat)
    : (Visible, seq<TlbEntry>, Store)
    requires ValidSpace(sp)
  {
    var aged := LookedUp(tlb, tag, req, time);
    var hit := FirstMatch(tlb, tag, req.iova / PAGE_SIZE);
    if hit < |tlb| && !LookupAt(tlb[hit], req).Miss? then (ShownHit(req, LookupAt(tlb[hit], req)), aged, m)
    else
      var (o, n) := Translation(sp, req, m);
      if fill && o.Done? then
        OutcomeFits(sp, req, m);
        (Shown(req, o), Filled(aged, slot, EntryOf(tag.(gscid := gscid), req.iova, o)), n)
      else (Shown(req, o), aged, n)
  }

  function Edited(m: Store, words: map<Slot, Pte>): Store { m.(words := m.words + words) }

  function CachedRun(spaces: map<Tag, Space>, tlb: seq<TlbEntry>, m: Store, steps: seq<Step>): (seq<Visible>, Store)
    requires ValidSpaces(spaces) && forall s | s in steps && s.Ask? :: s.tag in spaces
    decreases |steps|
  {
    if steps == [] then ([], m)
    else match steps[0]
      case Ask(tag, gscid, req, fill, slot, time) =>
        var (shown, tlb', n) := CachedAsk(spaces[tag], tlb, m, tag, gscid, req, fill, slot, time);
        var (rest, end) := CachedRun(spaces, tlb', n, steps[1..]);
        ([shown] + rest, end)
      case Edit(words, cmd) => CachedRun(spaces, Swept(cmd, tlb), Edited(m, words), steps[1..])
  }

  function PlainRun(spaces: map<Tag, Space>, m: Store, steps: seq<Step>): (seq<Visible>, Store)
    requires forall s | s in steps && s.Ask? :: s.tag in spaces
    decreases |steps|
  {
    if steps == [] then ([], m)
    else match steps[0]
      case Ask(tag, gscid, req, fill, slot, time) =>
        var (o, n) := Translation(spaces[tag], req, m);
        var (rest, end) := PlainRun(spaces, n, steps[1..]);
        ([Shown(req, o)] + rest, end)
      case Edit(words, cmd) => PlainRun(spaces, Edited(m, words), steps[1..])
  }

  // ---------------------------------------------------------------- covering invalidations

  /** The command's operands name the address `page` of the space `tag`; `global` tells whether its
      first-stage mapping is global. */
  predicate Names(cmd: Command, tag: Tag, page: nat, global: bool) {
    match cmd
    case Vma(c) =>
      && (if c.gv then tag.gv && tag.gscid == c.gscid else !tag.gv)
      && (c.pscv ==> tag.pscv && tag.pscid == c.pscid && !global)
      && (c.av ==> InRange(page, c.addr, c.s))
    case Gvma(c, _, _) =>
      && tag.gv && (c.gv ==> tag.gscid == c.gscid)
      && (tag.pscv || !c.av || !c.gv || InRange(page, c.addr, c.s))
  }

  predicate LeafGlobal(sp: Space, iova: nat, m: Store) {
    var r := VReach(sp, iova, m).0;
    !r.VStop? && (r.VLeaf? ==> sp.vmode.Paged?) && VTranslated(sp, iova, r).pte.G
  }

  /** Every address that an entry can hold, and whose tables the edit touches, is named by the command
      that follows it. */
  ghost predicate Covered(spaces: map<Tag, Space>, m: Store, words: map<Slot, Pte>, cmd: Command) {
    forall t, iova: U64 | t in spaces && Finished(spaces[t], iova, m) ::
      (forall s | s in Footprint(spaces[t], iova, m) :: s !in words) ||
      Names(cmd, t, iova / PAGE_SIZE, LeafGlobal(spaces[t], iova, m))
  }

  ghost predicate Legal(spaces: map<Tag, Space>, m: Store, steps: seq<Step>)
    decreases |steps|
  {
    && (forall s | s in steps && s.Ask? :: s.tag in spaces)
    && (steps != [] ==>
          match steps[0]
          case Ask(tag, gscid, req, _, _, _) =>
            (tag.gv ==> gscid == tag.gscid) && Legal(spaces, Translation(spaces[tag], req, m).1, steps[1..])
          case Edit(words, cmd) =>
            Covered(spaces, m, words, cmd) && Legal(spaces, Edited(m, words), steps[1..]))
  }

  // ---------------------------------------------------------------- steps keep the entries right

  lemma AgreesIgnores(e: TlbEntry, sp: Space, iova: U64, m: Store, lru: nat, valid: bool)
    requires AgreesAt(e, sp, iova, m)
    ensures AgreesAt(e.(lru := lru, valid := valid), sp, iova, m)
  {
    hide VReach, GReach, VTranslated, GTranslated, WellAligned, SameBlock, Min, MergedPbmt, RangeBits;
  }

  lemma EntryOkIgnores(e: TlbEntry, sp: Space, m: Store, lru: nat, valid: bool)
    requires EntryOk(e, sp, m)
    ensures EntryOk(e.(lru := lru, valid := valid), sp, m)
  {
    hide AgreesAt;
    var e' := e.(lru := lru, valid := valid);
    forall iova: U64 | Holds(e', iova) ensures AgreesAt(e', sp, iova, m) {
      assert Holds(e, iova);
      AgreesIgnores(e, sp, iova, m, lru, valid);
    }
  }

  lemma NamedMatches(cmd: Command, e: TlbEntry, page: PageNumber)
    requires InRange(page, e.vpn, e.s) && Names(cmd, e.tag, page, e.g)
    ensures if cmd.Vma? then VmaMatches(cmd.c, e) else GvmaMatches(cmd.c, e)
  {
    hide MatchAddressRange, InRange;
    if InRange(page, cmd.c.addr, cmd.c.s) { MatchIffRangesMeet(cmd.c.addr, cmd.c.s, e.vpn, e.s); }
  }

  lemma SweepDropsNamed(cmd: Command, tlb: seq<TlbEntry>, i: nat, page: PageNumber)
    requires i < |tlb| && tlb[i].valid && InRange(page, tlb[i].vpn, tlb[i].s) && Names(cmd, tlb[i].tag, page, tlb[i].g)
    ensures |Swept(cmd, tlb)| == |tlb| && !Swept(cmd, tlb)[i].valid
  {
    NamedMatches(cmd, tlb[i], page);
    hide InRange, Names, VmaMatches, GvmaMatches;
    if cmd.Gvma? { GvmaLeavesNoMatch(cmd.c, tlb, cmd.gscid0, cmd.addr0, i); }
  }

  lemma DropShape(e: TlbEntry, drop: bool)
    ensures DropIf(e, drop) == e.(valid := DropIf(e, drop).valid) && (DropIf(e, drop).valid ==> e.valid)
  {
  }

  lemma SweepShape(cmd: Command, tlb: seq<TlbEntry>, i: nat)
    requires i < |tlb|
    ensures |Swept(cmd, tlb)| == |tlb| && Swept(cmd, tlb)[i] == tlb[i].(valid := Swept(cmd, tlb)[i].valid)
    ensures Swept(cmd, tlb)[i].valid ==> tlb[i].valid
  {
    hide VmaMatches, GvmaDrops, VmaSwept, GvmaSwept, DropIf;
    match cmd
    case Vma(c) => DropShape(tlb[i], VmaMatches(c, tlb[i]));
    case Gvma(c, g, a) => DropShape(tlb[i], GvmaDrops(c, tlb, g, a, i));
  }

  lemma SurvivorOk(e: TlbEntry, sp: Space, m: Store, words: map<Slot, Pte>, cmd: Command)
    requires EntryOk(e, sp, m)
    requires forall iova: U64 | Holds(e, iova) && Names(cmd, e.tag, iova / PAGE_SIZE, LeafGlobal(sp, iova, m)) ::
               LeafGlobal(sp, iova, m) != e.g
    requires forall iova: U64 | Finished(sp, iova, m) ::
      (forall s | s in Footprint(sp, iova, m) :: s !in words) || Names(cmd, e.tag, iova / PAGE_SIZE, LeafGlobal(sp, iova, m))
    ensures EntryOk(e, sp, Edited(m, words))
  {
    hide VReach, GReach, VTranslated, GTranslated, Footprint, Names, EntryLg, WellAligned;
    var n := Edited(m, words);
    forall iova: U64 | Holds(e, iova) ensures AgreesAt(e, sp, iova, n) {
      assert AgreesAt(e, sp, iova, m);
      assert LeafGlobal(sp, iova, m) == e.g;
      AgreesFrame(e, sp, iova, m, n);
    }
  }

  lemma EditKeepsOk(spaces: map<Tag, Space>, tlb: seq<TlbEntry>, m: Store, words: map<Slot, Pte>, cmd: Command)
    requires TlbOk(tlb, spaces, m) && Covered(spaces, m, words, cmd)
    ensures TlbOk(Swept(cmd, tlb), spaces, Edited(m, words))
  {
    hide EntryOk, Swept, Names, LeafGlobal, Footprint, Holds, Finished;
    var tlb' := Swept(cmd, tlb);
    SweepLength(cmd, tlb);
    forall i | 0 <= i < |tlb'| && tlb'[i].valid && tlb'[i].tag in spaces
      ensures EntryOk(tlb'[i], spaces[tlb'[i].tag], Edited(m, words))
    {
      SweepShape(cmd, tlb, i);
      var e := tlb[i];
      var sp := spaces[e.tag];
      forall iova: U64 | Holds(e, iova) && Names(cmd, e.tag, iova / PAGE_SIZE, LeafGlobal(sp, iova, m))
        ensures LeafGlobal(sp, iova, m) != e.g
      {
        if LeafGlobal(sp, iova, m) == e.g {
          HoldsRange(e, iova);
          SweepDropsNamed(cmd, tlb, i, iova / PAGE_SIZE);
        }
      }
      SurvivorOk(e, sp, m, words, cmd);
      EntryOkIgnores(e, sp, Edited(m, words), e.lru, true);
    }
  }

  lemma SweepLength(cmd: Command, tlb: seq<TlbEntry>)
    ensures |Swept(cmd, tlb)| == |tlb|
  {
  }

  lemma HoldsRange(e: TlbEntry, iova: nat)
    ensures Holds(e, iova) == InRange(iova / PAGE_SIZE, e.vpn, e.s)
  {
  }

  /** The entry of a translation is right everywhere on its page. */
  lemma FillOk(tag: Tag, sp: Space, req: Request, m: Store)
    requires ValidSpace(sp) && PagesFit(sp) && Translation(sp, req, m).0.Done?
    ensures var (o, n) := Translation(sp, req, m);
            12 <= o.lg <= 56 && o.pa < 0x100_0000_0000_0000 && EntryOk(EntryOf(tag, req.iova, o), sp, n)
  {
    hide Translation, AgreesAt, EntryOf, EntryLg;
    var (o, n) := Translation(sp, req, m);
    FillAgrees(tag, sp, req, m);
    var e := EntryOf(tag, req.iova, o);
    forall iova: U64 | Holds(e, iova) ensures AgreesAt(e, sp, iova, n) {
      AgreesInPage(e, sp, req.iova, iova, n);
    }
  }

  lemma UpdatesKeepOk(tlb: seq<TlbEntry>, spaces: map<Tag, Space>, m: Store, n: Store)
    requires TlbOk(tlb, spaces, m) && AdExtends(m, n)
    ensures TlbOk(tlb, spaces, n)
  {
    hide AgreesAt, Holds, AdExtends;
    forall i | 0 <= i < |tlb| && tlb[i].valid && tlb[i].tag in spaces ensures EntryOk(tlb[i], spaces[tlb[i].tag], n) {
      assert EntryOk(tlb[i], spaces[tlb[i].tag], m);
      forall iova: U64 | Holds(tlb[i], iova) ensures AgreesAt(tlb[i], spaces[tlb[i].tag], iova, n) {
        AgreesStable(tlb[i], spaces[tlb[i].tag], iova, m, n);
      }
    }
  }

  lemma AgingKeepsOk(tlb: seq<TlbEntry>, spaces: map<Tag, Space>, m: Store, tag: Tag, req: Request, time: nat)
    requires TlbOk(tlb, spaces, m)
    ensures TlbOk(LookedUp(tlb, tag, req, time), spaces, m)
  {
    hide EntryOk, LookupAt;
    var i := FirstMatch(tlb, tag, req.iova / PAGE_SIZE);
    if i < |tlb| && tlb[i].tag in spaces {
      EntryOkIgnores(tlb[i], spaces[tlb[i].tag], m, time, !LookupAt(tlb[i], req).Miss?);
    }
  }

  lemma FillingKeepsOk(tlb: seq<TlbEntry>, spaces: map<Tag, Space>, m: Store, slot: nat, e: TlbEntry)
    requires TlbOk(tlb, spaces, m) && (e.tag in spaces ==> EntryOk(e, spaces[e.tag], m))
    ensures TlbOk(Filled(tlb, slot, e), spaces, m)
  {
    hide EntryOk;
    if slot < |tlb| && e.tag in spaces {
      EntryOkIgnores(e, spaces[e.tag], m, tlb[slot].lru, true);
    }
  }

  /** One request: the same response and the same memory as a walk, and the entries stay right. */
  lemma AskIsWalk(spaces: map<Tag, Space>, tlb: seq<TlbEntry>, m: Store, s: Step)
    requires ValidSpaces(spaces) && TlbOk(tlb, spaces, m) && s.Ask? && s.tag in spaces && (s.tag.gv ==> s.gscid == s.tag.gscid)
    ensures var (shown, tlb', n) := CachedAsk(spaces[s.tag], tlb, m, s.tag, s.gscid, s.req, s.fill, s.slot, s.time);
            var (o, n') := Translation(spaces[s.tag], s.req, m);
            shown == Shown(s.req, o) && n == n' && TlbOk(tlb', spaces, n)
  {
    hide Translation, EntryOk, LookupAt, Shown, ShownHit, EntryOf, LookedUp, Filled, Matches;
    var sp := spaces[s.tag];
    AgingKeepsOk(tlb, spaces, m, s.tag, s.req, s.time);
    var hit := FirstMatch(tlb, s.tag, s.req.iova / PAGE_SIZE);
    if hit < |tlb| && !LookupAt(tlb[hit], s.req).Miss? {
      HitAgrees(spaces, tlb, m, s.tag, s.req, hit);
      HitIsWalk(tlb[hit], sp, s.req, m);
    } else {
      var aged := LookedUp(tlb, s.tag, s.req, s.time);
      var (o, n) := Translation(sp, s.req, m);
      TranslationOnlySetsAd(sp, s.req, m);
      UpdatesKeepOk(aged, spaces, m, n);
      if s.fill && o.Done? {
        var tag := s.tag.(gscid := s.gscid);
        FillOk(tag, sp, s.req, m);
        FillingKeepsOk(aged, spaces, n, s.slot, EntryOf(tag, s.req.iova, o));
      }
    }
  }

  lemma HitAgrees(spaces: map<Tag, Space>, tlb: seq<TlbEntry>, m: Store, tag: Tag, req: Request, hit: nat)
    requires TlbOk(tlb, spaces, m) && tag in spaces && hit < |tlb| && Matches(tlb[hit], tag, req.iova / PAGE_SIZE)
    ensures AgreesAt(tlb[hit], spaces[tag], req.iova, m) && tlb[hit].tag == tag
  {
    hide AgreesAt;
    var e := tlb[hit];
    MatchMeaning(req.iova / PAGE_SIZE, false, e.vpn, e.s);
    assert EntryOk(e, spaces[tag], m);
    assert Holds(e, req.iova);
  }

  /** The IOTLB is invisible. Over any run of requests, fills, replacements and edits each followed by
      an invalidation that names what it touched, starting with an IOTLB that holds nothing wrong (an
      empty one, say), every response and the final memory are those of the machine that always walks. */
  lemma {:induction false} CachedRunIsPlainRun(spaces: map<Tag, Space>, tlb: seq<TlbEntry>, m: Store, steps: seq<Step>)
    requires ValidSpaces(spaces) && TlbOk(tlb, spaces, m) && Legal(spaces, m, steps)
    ensures CachedRun(spaces, tlb, m, steps) == PlainRun(spaces, m, steps)
    decreases |steps|
  {
    hide Translation, TlbOk, CachedAsk, Swept, Covered;
    if steps != [] {
      var s := steps[0];
      if s.Ask? {
        AskIsWalk(spaces, tlb, m, s);
        var (shown, tlb', n) := CachedAsk(spaces[s.tag], tlb, m, s.tag, s.gscid, s.req, s.fill, s.slot, s.time);
        CachedRunIsPlainRun(spaces, tlb', n, steps[1..]);
      } else {
        EditKeepsOk(spaces, tlb, m, s.words, s.cmd);
        CachedRunIsPlainRun(spaces, Swept(s.cmd, tlb), Edited(m, s.words), steps[1..]);
      }
    }
  }

  lemma EmptyTlbOk(tlb: seq<TlbEntry>, spaces: map<Tag, Space>, m: Store)
    requires forall i | 0 <= i < |tlb| :: !tlb[i].valid
    ensures TlbOk(tlb, spaces, m)
  {
  }

  // ---------------------------------------------------------------- the code

  /** Steps 17 to 20 of `iommu_translate_iova`: look up, walk on a miss, merge, fill, respond. */
  method TranslateIova(mem: Memory, tlb: IoTlb, sp: Space, tag: Tag, gscid: nat, req: Request, fill: bool)
    returns (shown: Visible, write: Option<bool>, ghost slot: nat)
    requires ValidSpace(sp) && tlb.Valid() && tlb.lruTime < 0x1_0000_0000
    modifies mem, tlb`lruTime, tlb.entries
    ensures tlb.Valid()
    ensures (shown, tlb.entries[..], mem.store) ==
            CachedAsk(sp, old(tlb.entries[..]), old(mem.store), tag, gscid, req, fill, slot, old(tlb.lruTime))
    ensures write.Some? ==> var o := Translation(sp, req, old(mem.store)).0; o.Done? && write.value == Writable(o)
    ensures write.None? ==> shown.Refused? || !LookupIn(old(tlb.entries[..]), tag, req).Miss?
  {
    hide Translation, LookupAt, EntryOf, Delivers, IsVictim, Filled;
    slot, write := 0, None;
    ghost var m := mem.store;
    var found := tlb.LookupIotlb(tag, req);
    if !found.Miss? {
      shown := ShownHit(req, found);
      return;
    }
    var rsp, gpa, loads, atomics := TranslateMiss(mem, sp, req);
    ghost var o := Translation(sp, req, m).0;
    if o.Done? { OutcomeFits(sp, req, m); }
    shown, write := Respond(req, rsp, o);
    if fill && rsp.success {
      var e := CodedEntry(tag.(gscid := gscid), req.iova, rsp, o);
      slot := tlb.CacheIotlb(e);
    }
  }

  /** The W right of an ATS response: both stages allow writes, and both dirty bits are set. */
  predicate Writable(o: Outcome)
    requires o.Done?
  {
    o.vpte.W && o.gpte.W && o.vpte.D && o.gpte.D
  }

  /** Step 20: the response, and the W right, which only a walk knows. */
  method Respond(req: Request, rsp: Response, ghost o: Outcome) returns (shown: Visible, write: Option<bool>)
    requires Delivers(rsp, o) && (o.Done? ==> 12 <= o.lg <= 56 && o.pa < TWO_64)
    ensures shown == Shown(req, o) && (rsp.success <==> o.Done?)
    ensures write == if o.Done? then Some(Writable(o)) else None
  {
    if !rsp.success { return Refused(rsp.cause, rsp.iotval2), None; }
    hide NapotPn, Pow2;
    CodedIn(o.pa, o.lg);
    PageOrMore(o.lg);
    shown := Granted(rsp.pa, rsp.pageSize, NapotPn(rsp.pa, rsp.pageSize), rsp.pageSize > PAGE_SIZE, rsp.vpte.PBMT,
                     rsp.vpte.R && rsp.gpte.R, rsp.vpte.X && rsp.gpte.X && rsp.vpte.R && rsp.gpte.R && req.exec);
    write := Some(rsp.vpte.W && rsp.gpte.W && rsp.vpte.D && rsp.gpte.D);
  }

  /** The masks of the code give the page number with its low bits replaced. */
  lemma CodedIn(pa: U64, lg: nat)
    requires 12 <= lg <= 56
    ensures 1 < Pow2(lg) < TWO_64
    ensures NapotPn(pa, Pow2(lg)) == (pa - pa % Pow2(lg) + Pow2(lg) / 2 - 1) / PAGE_SIZE
  {
    hide NapotPn, Pow2, Splice, Low, Shr;
    SizeFits(lg);
    NapotBits(pa, lg);
    var ones := Pow2(lg - 1) - 1;
    SpliceParts(pa, ones, lg);
    LowIsRemainder(pa, lg);
    Pow2Mono(lg - 1, lg);
    ShrZero(ones, lg);
  }

  /** `napot_iova`, `napot_ppn` and the attributes, as `cache_ioatc_iotlb` stores them. */
  method CodedEntry(tag: Tag, iova: U64, rsp: Response, ghost o: Outcome) returns (e: TlbEntry)
    requires o.Done? && Delivers(rsp, o) && 12 <= o.lg <= 56 && o.pa < 0x100_0000_0000_0000
    ensures e == EntryOf(tag, iova, o)
  {
    hide NapotPn, Coded, Shr;
    NapotPnIsCoded(iova, o.lg);
    NapotPnIsCoded(o.pa, o.lg);
    Pow2Of64();
    assert Pow2(44) == 16 * Pow2(40);
    CodedBound(o.pa, o.lg, 56);
    PageOrMore(o.lg);
    e := TlbEntry(true, tag, NapotPn(iova, rsp.pageSize), rsp.pageSize > PAGE_SIZE,
                  rsp.vpte.R, rsp.vpte.W, rsp.vpte.X, rsp.vpte.D, rsp.vpte.U, rsp.vpte.G, rsp.vpte.PBMT,
                  rsp.gpte.R, rsp.gpte.W, rsp.gpte.X, rsp.gpte.D, NapotPn(rsp.pa, rsp.pageSize), 0);
  }

  lemma PageOrMore(lg: nat)
    requires lg >= 12
    ensures Pow2(lg) > PAGE_SIZE <==> lg > 12
  {
    SmallPowers();
    Pow2Mono(12, lg);
  }
}
