/** What each command does to the queue, to memory and to the devices, and when none is taken up. */
module CommandRules {
  import opened Bits
  import opened Common
  import opened Interrupts
  import opened RingMemory
  import opened CommandQueue

  /** The queue is on, without an error and not held up, and its command lies at `addr`. */
  predicate TakesUp(s: State, addr: nat) {
    && s.Csr().cqon && s.Csr().cqen && !s.Csr().cqmf && !s.Csr().cmd_to && !s.Csr().cmd_ill && !s.waiting && !s.stalled
    && s.cq.head != s.cq.tail && Aligned(s.cq, 4) && addr == s.cq.ppn * PAGE_SIZE + 16 * s.cq.head
  }

  /** No command is taken up while the queue is off or being turned off, empty, in error, or held up. */
  lemma NoneIsTakenUp(s: State, fetched: Fetched)
    requires ValidState(s)
    requires || !s.Csr().cqon || !s.Csr().cqen || s.Csr().cqmf || s.Csr().cmd_to || s.Csr().cmd_ill || s.waiting || s.stalled
             || s.cq.head == s.cq.tail
    ensures Process(s, fetched) == s
  {
  }

  lemma HeadAddress(s: State, addr: nat)
    requires ValidState(s) && TakesUp(s, addr)
    ensures Ready(s) && s.cq.SlotAddr(s.cq.head, CQ_ENTRY_SZ) == addr
    ensures s.cq.Next(s.cq.head) == if s.cq.head + 1 == s.cq.Entries() then 0 else s.cq.head + 1
  {
    assert Pow2(4) == 16 by { assert Pow2(4) == 2 * Pow2(3) && Pow2(3) == 2 * Pow2(2); }
    SlotAddress(s.cq, 4, s.cq.head);
    NextInRing(s.cq, s.cq.head);
  }

  /** The state after `acts`, with the head past the command. */
  predicate Passed(s: State, s': State, acts: seq<Act>, fence: bool) {
    && s'.trace == s.trace + acts + [Retired(s.cq.head, fence)]
    && s'.cq == s.cq.(head := if s.cq.head + 1 == s.cq.Entries() then 0 else s.cq.head + 1)
  }

  /** A command that cannot be loaded sets the memory fault bit, an illegal one, or a fence that asks for a wired
      interrupt where the IOMMU sends messages, the illegal bit; both stay at the head, without effect. */
  lemma BadCommands(s: State, fetched: Fetched, addr: nat)
    requires ValidState(s) && TakesUp(s, addr)
    ensures var s' := Process(s, fetched);
            var fault := addr >= Pow2(s.dev.regs.pas) || fetched.LoadFault?;
            var illegal := fetched.Loaded? && (fetched.cmd.Illegal? || (fetched.cmd.FenceC? && fetched.cmd.fence.wsi && !s.dev.regs.wsi));
            fault || illegal ==>
              && s'.cq == s.cq && s'.tags == s.tags && s'.trace == s.trace && !s'.waiting && !s'.stalled
              && s'.Csr() == if fault then s.Csr().(cqmf := true) else s.Csr().(cmd_ill := true)
  {
    HeadAddress(s, addr);
    hide GenerateInterrupt, Or, Low, Pow2, Aligned, DoFence;
    InterruptKeepsCsr(s.dev, CommandUnit);
  }

  /** The command is loaded and legal. */
  predicate Good(s: State, addr: nat, cmd: Command) {
    && TakesUp(s, addr) && addr < Pow2(s.dev.regs.pas) && !cmd.Illegal? && !(cmd.FenceC? && cmd.fence.wsi && !s.dev.regs.wsi)
  }

  lemma GoodExecutes(s: State, addr: nat, cmd: Command)
    requires ValidState(s) && Good(s, addr, cmd)
    ensures Process(s, Loaded(cmd)) == Execute(s, cmd) && !IllegalHere(s, cmd)
  {
    HeadAddress(s, addr);
    hide Execute, Or, Low, Pow2, Aligned, Signal;
  }

  /** An ATS.INVAL goes out under the first free tag, which notes whom it went to; with none free it is kept back. */
  lemma InvalGoesOut(s: State, addr: nat, msg: AtsMessage)
    requires ValidState(s) && Good(s, addr, Inval(msg))
    ensures var s' := Process(s, Loaded(Inval(msg)));
            && s'.dev == s.dev && s'.waiting == s.waiting && s'.timeout == s.timeout
            && (!s.tags[0].busy ==>
                  && s'.tags == s.tags[0 := Tag(true, msg.dsv, msg.dseg, msg.rid, 0)] && !s'.stalled
                  && Passed(s, s', [Opened, Sent(0, msg)], false))
            && (s.tags[0].busy && !s.tags[1].busy ==>
                  && s'.tags == s.tags[1 := Tag(true, msg.dsv, msg.dseg, msg.rid, 0)] && !s'.stalled
                  && Passed(s, s', [Opened, Sent(1, msg)], false))
            && (s.tags[0].busy && s.tags[1].busy ==>
                  s'.tags == s.tags && s'.stalled && s'.blocked == msg && Passed(s, s', [Opened], false))
  {
    HeadAddress(s, addr);
    GoodExecutes(s, addr, Inval(msg));
    hide Process, Or, Low, Pow2, Aligned, ValidDevice;
  }

  /** An ATS.PRGR goes out as it is; a cache invalidation is done elsewhere. */
  lemma OthersPass(s: State, addr: nat, msg: AtsMessage)
    requires ValidState(s) && Good(s, addr, Prgr(msg))
    ensures Passed(s, Process(s, Loaded(Prgr(msg))), [Responded(msg)], false) && Process(s, Loaded(Prgr(msg))).dev == s.dev
    ensures Passed(s, Process(s, Loaded(Local)), [], false) && Process(s, Loaded(Local)).dev == s.dev
    ensures Process(s, Loaded(Prgr(msg))).tags == Process(s, Loaded(Local)).tags == s.tags
  {
    HeadAddress(s, addr);
    GoodExecutes(s, addr, Prgr(msg));
    GoodExecutes(s, addr, Local);
    hide Process, Or, Low, Pow2, Aligned, ValidDevice;
  }

  /** A fence that meets a request still out waits with all it asks for. */
  lemma FenceIsHeld(s: State, addr: nat, f: Fence)
    requires ValidState(s) && Good(s, addr, FenceC(f)) && (s.tags[0].busy || s.tags[1].busy)
    ensures Process(s, Loaded(FenceC(f))) == s.(waiting := true, fence := f)
  {
    GoodExecutes(s, addr, FenceC(f));
    hide Process, Or, Low, Pow2, Aligned, ValidDevice;
  }

  /** A fence with no request out and no timeout to report synchronizes what it names, stores its data where it says,
      sets the wired-interrupt bit if it asks for that, and passes; if the store fails it sets the memory fault bit
      and stays. */
  lemma FenceTakesEffect(s: State, addr: nat, f: Fence)
    requires ValidState(s) && Good(s, addr, FenceC(f)) && !s.tags[0].busy && !s.tags[1].busy && !s.timeout
    ensures var s' := Process(s, Loaded(FenceC(f)));
            var synced := if f.pr || f.pw then [Synced(f.pr, f.pw)] else [];
            var stored := if f.av then [FenceStored(f.addr, f.data)] else [];
            var fails := f.av && !StoreStatus(s.dev.regs.pas, s.dev.mem, f.addr).Okay?;
            && s'.tags == s.tags && !s'.waiting && !s'.stalled
            && (fails ==> s'.trace == s.trace + synced && s'.cq == s.cq && s'.Csr() == s.Csr().(cqmf := true))
            && (!fails ==> Passed(s, s', synced + stored, true) && s'.Csr() == if f.wsi then s.Csr().(fence_w_ip := true) else s.Csr())
            && (!fails && !f.wsi ==>
                  s'.dev == s.dev.(mem := s.dev.mem.(stores := s.dev.mem.stores + if f.av then [FenceStore(f.addr, f.data)] else [])))
  {
    HeadAddress(s, addr);
    GoodExecutes(s, addr, FenceC(f));
    hide Process, Or, Low, Pow2, Aligned, GenerateInterrupt;
    InterruptKeepsCsr(WithCsr(s, s.Csr().(cqmf := true)).dev, CommandUnit);
    FenceEffects(s.(waiting := false), f);
  }

  lemma FenceEffects(s: State, f: Fence)
    requires ValidState(s) && !s.timeout
    ensures var (s', stays) := FenceEnds(s, f);
            var synced := if f.pr || f.pw then [Synced(f.pr, f.pw)] else [];
            var stored := if f.av then [FenceStored(f.addr, f.data)] else [];
            && stays == (f.av && !StoreStatus(s.dev.regs.pas, s.dev.mem, f.addr).Okay?)
            && s'.trace == s.trace + synced + (if stays then [] else stored)
            && s'.Csr() == (if stays then s.Csr().(cqmf := true) else if f.wsi then s.Csr().(fence_w_ip := true) else s.Csr())
            && (!stays && !f.wsi ==>
                  s'.dev == s.dev.(mem := s.dev.mem.(stores := s.dev.mem.stores + if f.av then [FenceStore(f.addr, f.data)] else [])))
  {
    hide MemoryFault, FenceInterrupts, StoreStatus, ValidDevice, Pow2;
    var s1 := FenceSyncs(s, f);
    FaultBit(s1);
    InterruptBit(FenceStores(s1, f), f);
    assert FenceEnds(s, f) == FenceCompletes(s, f);
  }

  lemma FaultBit(s: State)
    requires ValidState(s)
    ensures MemoryFault(s).Csr() == s.Csr().(cqmf := true) && MemoryFault(s).trace == s.trace
  {
    hide ValidDevice, Pow2, GenerateInterrupt;
  }

  lemma InterruptBit(s: State, f: Fence)
    requires ValidState(s)
    ensures FenceInterrupts(s, f).Csr() == if f.wsi then s.Csr().(fence_w_ip := true) else s.Csr()
    ensures !f.wsi ==> FenceInterrupts(s, f) == s
  {
    hide ValidDevice, Pow2, GenerateInterrupt;
  }

  // ---------------------------------------------------------------- turning the queue on and off

  /** Turning the queue on empties it and forgets its errors. Turning it off waits for a fence that waits. Otherwise
      just the errors named are cleared. While the queue is being turned off no write has an effect. */
  lemma ControlWrite(s: State, w: CqWrite)
    requires ValidState(s)
    ensures var (s', c) := (WriteCqcsr(s, w), s.Csr());
            && s'.tags == s.tags && s'.waiting == s.waiting && s'.stalled == s.stalled && s'.dev.mem == s.dev.mem
            && (c.busy ==> s' == s)
            && (!c.busy && w.en && !c.cqen ==>
                  && s'.cq == s.cq.(head := 0) && s'.trace == s.trace + [Started]
                  && s'.Csr() == CqCsr(true, w.ie, false, false, false, false, true, false))
            && (!c.busy && !(w.en && !c.cqen) ==>
                  && s'.cq == s.cq && s'.trace == s.trace
                  && s'.Csr().cqen == w.en && s'.Csr().cie == w.ie && s'.Csr().cqmf == (c.cqmf && !w.clearMf)
                  && s'.Csr().cmd_to == (c.cmd_to && !w.clearTo) && s'.Csr().cmd_ill == (c.cmd_ill && !w.clearIll)
                  && s'.Csr().fence_w_ip == (c.fence_w_ip && !w.clearFence)
                  && s'.Csr().cqon == (if w.en == c.cqen then c.cqon else c.cqon && s.waiting))
  {
    hide ValidDevice, Pow2;
    if !s.Csr().busy { assert WriteCqcsr(s, w).Csr() == CqCsrAfter(s.Csr(), w, s.waiting); }
    hide WriteCqcsr;
  }
}
