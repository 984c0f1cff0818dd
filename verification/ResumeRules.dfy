/** What releases a command queue that is held up, and the writes of its registers. */
module ResumeRules {
  import opened Bits
  import opened Common
  import opened Interrupts
  import opened RingMemory
  import opened CommandQueue
  import opened CommandRules

  // ---------------------------------------------------------------- the fence and the request held up

  /** Nothing is resumed while a fence waits for a tag, or with nothing held up; the queue then stays as it is. */
  lemma NothingResumed(s: State)
    requires ValidState(s) && (s.waiting ==> s.Csr().cqon)
    requires if s.waiting then s.tags[0].busy || s.tags[1].busy else !s.stalled || (s.tags[0].busy && s.tags[1].busy)
    ensures Resume(s) == s
  {
    hide ValidDevice, Pow2, PendingFence;
  }

  /** The request kept back goes out under the first free tag, if no fence waits. */
  lemma BlockedGoesOut(s: State)
    requires ValidState(s) && !s.waiting && s.stalled && !(s.tags[0].busy && s.tags[1].busy)
    ensures var k := if s.tags[0].busy then 1 else 0;
            Resume(s) == s.(tags := s.tags[k := Tag(true, s.blocked.dsv, s.blocked.dseg, s.blocked.rid, 0)], stalled := false,
                            trace := s.trace + [Sent(k, s.blocked)])
  {
    hide ValidDevice, Pow2, PendingFence;
  }

  /** A fence waits, with no request out, and no request is kept back behind it. */
  predicate FenceFree(s: State) {
    ValidState(s) && s.waiting && s.Csr().cqon && !s.tags[0].busy && !s.tags[1].busy && !s.stalled
  }

  /** The fence that waits takes effect as if it had only come up now: it synchronizes, stores and interrupts as it
      asked, and the head passes it; if its store fails it stays. In any case the queue waits no longer, and a
      turning off that it delayed is done. */
  lemma FenceResumes(s: State)
    requires FenceFree(s) && !s.timeout
    ensures var (s', f, c) := (Resume(s), s.fence, s.Csr());
            var synced := if f.pr || f.pw then [Synced(f.pr, f.pw)] else [];
            var stored := if f.av then [FenceStored(f.addr, f.data)] else [];
            var fails := f.av && !StoreStatus(s.dev.regs.pas, s.dev.mem, f.addr).Okay?;
            && s'.tags == s.tags && !s'.waiting && !s'.stalled && !s'.timeout
            && (fails ==> s'.trace == s.trace + synced && s'.cq == s.cq && s'.Csr() == c.(cqmf := true, cqon := c.cqen, busy := false))
            && (!fails ==> Passed(s, s', synced + stored, true)
                           && s'.Csr() == c.(fence_w_ip := c.fence_w_ip || f.wsi, cqon := c.cqen, busy := false))
            && (!fails && !f.wsi ==>
                  s'.dev.mem == s.dev.mem.(stores := s.dev.mem.stores + if f.av then [FenceStore(f.addr, f.data)] else []))
  {
    NextInRing(s.cq, s.cq.head);
    FenceEffects(s.(waiting := false), s.fence);
    hide FenceEnds, Pow2, Low, ValidDevice, StoreStatus;
    assert DoFence(s, s.fence) == FenceEnds(s.(waiting := false), s.fence);
  }

  /** If a request was given up since, that is reported instead: the timeout bit is set and the fence stays, without
      effect, to be taken up again. */
  lemma TimeoutIsReported(s: State)
    requires FenceFree(s) && s.timeout
    ensures var (s', c) := (Resume(s), s.Csr());
            && s'.tags == s.tags && s'.cq == s.cq && !s'.waiting && !s'.stalled && !s'.timeout
            && s'.trace == s.trace + [TimeoutReported] && s'.Csr() == c.(cmd_to := true, cqon := c.cqen, busy := false)
  {
    TimeoutBit(s.(waiting := false));
    hide ReportTimeout, Pow2, Low, ValidDevice;
    assert DoFence(s, s.fence) == (ReportTimeout(s.(waiting := false)), true);
  }

  lemma TimeoutBit(s: State)
    requires ValidState(s)
    ensures var s' := ReportTimeout(s);
            s'.Csr() == s.Csr().(cmd_to := true) && s'.trace == s.trace + [TimeoutReported] && !s'.timeout
  {
    hide ValidDevice, Pow2, GenerateInterrupt;
  }

  // ---------------------------------------------------------------- requests given up

  /** A request out under a tag that is named ends, late. */
  function GivenUp(s: State, i: nat, named: bool): State
    requires i < |s.tags|
  {
    if s.tags[i].busy && named then s.(tags := s.tags[i := s.tags[i].(busy := false)], trace := s.trace + [Closed(i, true)]) else s
  }

  /** A timeout gives up the requests under the tags named, is noted for the next fence to report, and resumes. */
  lemma TimeoutGivesUp(s: State, vector: nat)
    requires ValidState(s) && (s.waiting ==> s.Csr().cqon)
    ensures var s1 := GivenUp(GivenUp(s, 0, vector % 2 == 1), 1, vector / 2 % 2 == 1);
            var s2 := s1.(timeout := true, trace := s1.trace + [TimedOut]);
            ValidState(s2) && Expire(s, vector) == Resume(s2)
  {
    VectorBits(vector);
    hide Resume, ValidDevice, Pow2, BitSet;
    var s0 := GivenUp(s, 0, vector % 2 == 1);
    var s1 := GivenUp(s0, 1, vector / 2 % 2 == 1);
    LapsedIs(s, 0, vector % 2 == 1);
    LapsedIs(s0, 1, vector / 2 % 2 == 1);
    hide GivenUp, Lapsed;
    assert ExpireFrom(s, 0, vector) == ExpireFrom(s0, 1, vector);
    assert ExpireFrom(s0, 1, vector) == ExpireFrom(s1, 2, vector) == s1;
  }

  lemma LapsedIs(s: State, i: nat, named: bool)
    requires ValidState(s) && i < MAX_ITAGS
    ensures ValidState(GivenUp(s, i, named)) && GivenUp(s, i, named) == if named then Lapsed(s, i) else s
    ensures var s' := GivenUp(s, i, named); s'.waiting == s.waiting && s'.dev == s.dev
  {
    hide ValidDevice, Pow2;
    assert !s.tags[i].busy ==> s.tags[i := s.tags[i].(busy := false)] == s.tags;
  }

  lemma VectorBits(vector: nat)
    ensures (BitSet(vector, 0) <==> vector % 2 == 1) && (BitSet(vector, 1) <==> vector / 2 % 2 == 1)
  {
    assert Pow2(0) == 1 && Pow2(1) == 2;
    LowIsRemainder(vector, 0);
    LowIsRemainder(vector, 1);
    LowIsRemainder(Shr(vector, 0), 1);
    LowIsRemainder(Shr(vector, 1), 1);
  }

  // ---------------------------------------------------------------- the base and the tail

  /** Software moves the tail to any slot there is, and the base, which empties the queue, only with the queue off. */
  lemma BaseAndTail(s: State, ppn: nat, log2szm1: nat, index: nat)
    requires ValidState(s) && log2szm1 < 32
    ensures WriteCqb(s, ppn, log2szm1) == if s.Csr().busy || s.Csr().cqon then s else s.(cq := Ring(ppn, log2szm1, s.cq.head, 0))
    ensures WriteCqt(s, index) == s.(cq := s.cq.(tail := index % s.cq.Entries()))
  {
    LowIsRemainder(index, s.cq.Lg());
    hide Low, Pow2, ValidDevice;
  }
}
