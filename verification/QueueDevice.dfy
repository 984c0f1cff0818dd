/** The command queue's effects outside itself: the words its fences store, and the interrupts that
    announce its errors. */
module QueueDevice {
  import opened Bits
  import opened Interrupts
  import opened FaultQueue
  import opened CommandQueue
  import opened FenceOrder

  /** The fence data in memory, oldest first. */
  function FenceWords(stores: seq<StoreOp>): seq<(nat, nat)> {
    if stores == [] then []
    else
      var last := stores[|stores| - 1];
      FenceWords(stores[..|stores| - 1]) + if last.FenceStore? then [(last.addr, last.data)] else []
  }

  /** The fence data in the trace. */
  function FenceActs(t: seq<Act>): seq<(nat, nat)> {
    if t == [] then []
    else
      var last := t[|t| - 1];
      FenceActs(t[..|t| - 1]) + if last.FenceStored? then [(last.addr, last.data)] else []
  }

  lemma WordsGrow(stores: seq<StoreOp>, op: StoreOp)
    ensures FenceWords(stores + [op]) == FenceWords(stores) + if op.FenceStore? then [(op.addr, op.data)] else []
  {
    assert (stores + [op])[..|stores|] == stores;
  }

  lemma ActsGrow(t: seq<Act>, a: Act)
    ensures FenceActs(t + [a]) == FenceActs(t) + if a.FenceStored? then [(a.addr, a.data)] else []
  {
    assert (t + [a])[..|t|] == t;
  }

  lemma InterruptStoresNoFence(d: Device, u: Unit)
    requires ValidDevice(d)
    ensures FenceWords(GenerateInterrupt(d, u).mem.stores) == FenceWords(d.mem.stores)
    decreases ClearBits(d.regs.ipsr), 0
  {
    if !Pending(d.regs.ipsr, u) && EnabledFor(d.regs, u) {
      var d1 := d.(regs := d.regs.(ipsr := Raise(d.regs.ipsr, u)));
      MsiStoresNoFence(d1, d.regs.msiTable[VectorOf(d.regs, u)]);
    }
  }

  lemma MsiStoresNoFence(d: Device, e: MsiEntry)
    requires ValidDevice(d)
    ensures FenceWords(DoMsi(d, e).mem.stores) == FenceWords(d.mem.stores)
    decreases ClearBits(d.regs.ipsr), 2
  {
    WordsGrow(d.mem.stores, MsiStore(e.addr, e.data));
    if StoreStatus(d.regs.pas, d.mem, e.addr).AccessFault? { ReportStoresNoFence(d, MsiFault(e.addr), false); }
  }

  lemma ReportStoresNoFence(d: Device, rec: FaultRecord, dtf: bool)
    requires ValidDevice(d)
    ensures FenceWords(ReportFault(d, rec, dtf).mem.stores) == FenceWords(d.mem.stores)
    decreases ClearBits(d.regs.ipsr), 1
  {
    hide ValidDevice, Pow2, Low, FenceWords;
    if FaultsAccepted(d, rec.cause, dtf) {
      EnqueuedIsValid(d, Normal(rec));
      WordsGrow(d.mem.stores, FaultStore(d.regs.fq.SlotAddr(d.regs.fq.tail, FQ_ENTRY_SZ), Normal(rec)));
      InterruptStoresNoFence(Enqueued(d, Normal(rec)), FaultUnit);
    }
  }

  /** Memory holds just the fence data of the trace, and every error of an enabled unit is pending. */
  predicate Faithful(s: State) { FenceWords(s.dev.mem.stores) == FenceActs(s.trace) && AllAnnounced(s.dev) }

  lemma RaisedIsFaithful(s: State, already: bool, c: CqCsr)
    requires ValidState(s) && c.cqon == s.Csr().cqon && c.cqen == s.Csr().cqen && c.busy == s.Csr().busy && c.cie == s.Csr().cie
    requires Faithful(s)
    ensures Faithful(Raised(s, already, c))
  {
    var d := WithCsr(s, c).dev;
    InterruptStoresNoFence(d, CommandUnit);
    InterruptAnnounces(d, CommandUnit);
    hide GenerateInterrupt, FenceWords, FenceActs, Pow2;
  }

  lemma ReportTimeoutFaithful(s: State)
    requires ValidState(s) && Faithful(s)
    ensures Faithful(ReportTimeout(s))
  {
    RaisedIsFaithful(s, s.Csr().cmd_to, s.Csr().(cmd_to := true));
    hide Raised, AllAnnounced, ValidDevice;
    ActsGrow(Raised(s, s.Csr().cmd_to, s.Csr().(cmd_to := true)).trace, TimeoutReported);
  }

  lemma MemoryFaultFaithful(s: State)
    requires ValidState(s) && Faithful(s)
    ensures Faithful(MemoryFault(s))
  {
    RaisedIsFaithful(s, s.Csr().cqmf, s.Csr().(cqmf := true));
    hide Raised, Faithful;
  }

  lemma FenceInterruptsFaithful(s: State, f: Fence)
    requires ValidState(s) && Faithful(s)
    ensures Faithful(FenceInterrupts(s, f))
  {
    RaisedIsFaithful(s, s.Csr().fence_w_ip || !f.wsi, s.Csr().(fence_w_ip := true));
    hide Raised, Faithful;
  }

  lemma FenceStoresFaithful(s: State, f: Fence)
    requires ValidState(s) && Faithful(s)
    ensures Faithful(FenceStores(s, f))
  {
    ActsGrow(s.trace, FenceStored(f.addr, f.data));
    WordsGrow(s.dev.mem.stores, FenceStore(f.addr, f.data));
    hide FenceWords, FenceActs, ValidDevice;
  }

  lemma FenceEndsFaithful(s: State, f: Fence)
    requires ValidState(s) && Faithful(s)
    ensures Faithful(FenceEnds(s, f).0)
  {
    hide ReportTimeout, MemoryFault, FenceInterrupts, FenceStores, FenceSyncs, Faithful, ValidDevice, Pow2;
    if s.timeout {
      ReportTimeoutFaithful(s);
    } else {
      FenceSyncsFaithful(s, f);
      var s1 := FenceSyncs(s, f);
      MemoryFaultFaithful(s1);
      FenceStoresFaithful(s1, f);
      FenceInterruptsFaithful(FenceStores(s1, f), f);
    }
  }

  lemma FenceSyncsFaithful(s: State, f: Fence)
    requires ValidState(s) && Faithful(s)
    ensures Faithful(FenceSyncs(s, f))
  {
    ActsGrow(s.trace, Synced(f.pr, f.pw));
  }

  lemma RetireFaithful(s: State, fence: bool)
    requires Faithful(s)
    ensures Faithful(Retire(s, fence))
  {
    ActsGrow(s.trace, Retired(s.cq.head, fence));
  }

  lemma DidFaithful(s: State, a: Act)
    requires Faithful(s) && !a.FenceStored?
    ensures Faithful(Did(s, a))
  {
    ActsGrow(s.trace, a);
  }

  lemma DoFenceFaithful(s: State, f: Fence)
    requires ValidState(s) && Faithful(s)
    ensures Faithful(DoFence(s, f).0)
  {
    FenceEndsFaithful(s.(waiting := false), f);
    hide FenceEnds, FenceWords, FenceActs, AnyBusy;
  }

  lemma ResumeFaithful(s: State)
    requires Inv(s) && Faithful(s)
    ensures Faithful(Resume(s))
  {
    hide DoFence, Faithful, ValidDevice, Pow2, AnyBusy, Ledger, Low;
    var s2 := if s.waiting && !AnyBusy(s.tags) then PendingFence(s) else s;
    if s.waiting { PendingFenceFaithful(s); }
    var k := FreeTag(s2.tags, 0);
    UnblockFaithful(s2);
  }

  lemma PendingFenceFaithful(s: State)
    requires ValidState(s) && s.Csr().cqon && Faithful(s)
    ensures Faithful(PendingFence(s))
  {
    hide DoFence, Faithful, ValidDevice, Pow2;
    DoFenceFaithful(s, s.fence);
    var (s1, stays) := DoFence(s, s.fence);
    RetireFaithful(s1, true);
    SwitchedFaithful(if stays then s1 else Retire(s1, true));
  }

  lemma SwitchedFaithful(s: State)
    requires Faithful(s)
    ensures Faithful(WithCsr(s, s.Csr().(cqon := s.Csr().cqen, busy := false)))
  {
    hide FenceWords, FenceActs;
  }

  lemma UnblockFaithful(s: State)
    requires ValidState(s) && Faithful(s)
    ensures Faithful(Unblock(s))
  {
    ActsGrow(s.trace, Sent(FreeTag(s.tags, 0), s.blocked));
  }

  lemma CompleteFromFaithful(s: State, i: nat, m: Completion)
    requires ValidState(s) && i <= MAX_ITAGS && Faithful(s)
    ensures Faithful(CompleteFrom(s, i, m).0)
    decreases MAX_ITAGS - i
  {
    hide ValidDevice, Pow2, BitSet, FenceWords, FenceActs;
    if i < MAX_ITAGS {
      if !BitSet(m.vector, i) { CompleteFromFaithful(s, i + 1, m); }
      else if Accepts(s.tags[i], m) {
        var s1 := s.(tags := s.tags[i := Counted(s.tags[i], m)]);
        DidFaithful(s1, Heard(i, m));
        DidFaithful(Did(s1, Heard(i, m)), Closed(i, false));
        CompleteFromFaithful(Credited(s, i, m), i + 1, m);
      }
    }
  }

  lemma ExpireFromFaithful(s: State, i: nat, vector: nat)
    requires ValidState(s) && i <= MAX_ITAGS && Faithful(s)
    ensures Faithful(ExpireFrom(s, i, vector))
    decreases MAX_ITAGS - i
  {
    hide ValidDevice, Pow2, BitSet, FenceWords, FenceActs;
    if i < MAX_ITAGS {
      if !BitSet(vector, i) { ExpireFromFaithful(s, i + 1, vector); }
      else {
        var s1 := s.(tags := s.tags[i := s.tags[i].(busy := false)]);
        DidFaithful(s1, Closed(i, true));
        ExpireFromFaithful(Lapsed(s, i), i + 1, vector);
      }
    }
  }

  lemma ExecuteFaithful(s: State, c: Command)
    requires ValidState(s) && s.Csr().cqon && Faithful(s)
    ensures Faithful(Execute(s, c))
  {
    hide DoFence, Faithful, ValidDevice, Pow2, Low, Retire, Signal;
    if IllegalHere(s, c) {
      RaisedIsFaithful(s, false, s.Csr().(cmd_ill := true));
    } else {
      match c {
        case FenceC(f) =>
          DoFenceFaithful(s, f);
          RetireFaithful(DoFence(s, f).0, true);
        case Inval(m) =>
          var k := FreeTag(s.tags, 0);
          DidFaithful(s, Opened);
          InvalFaithful(s, k, m);
          RetireFaithful(if k < |s.tags| then Send(Did(s, Opened), k, m) else Did(s, Opened).(stalled := true, blocked := m), false);
        case Prgr(m) =>
          DidFaithful(s, Responded(m));
          RetireFaithful(Did(s, Responded(m)), false);
        case Local => RetireFaithful(s, false);
      }
    }
  }

  lemma InvalFaithful(s: State, k: nat, m: AtsMessage)
    requires k <= |s.tags| && Faithful(Did(s, Opened))
    ensures Faithful(if k < |s.tags| then Send(Did(s, Opened), k, m) else Did(s, Opened).(stalled := true, blocked := m))
  {
    ActsGrow(Did(s, Opened).trace, Sent(k, m));
  }

  lemma ProcessFaithful(s: State, fetched: Fetched)
    requires ValidState(s) && Faithful(s)
    ensures Faithful(Process(s, fetched))
  {
    hide Execute, Signal, Faithful, ValidDevice, Pow2, Low, Or;
    if Ready(s) && s.cq.head != s.cq.tail {
      RaisedIsFaithful(s, false, s.Csr().(cqmf := true));
      if fetched.Loaded? { ExecuteFaithful(s, fetched.cmd); }
    }
  }

  /** Software turns the interrupts of the queue on over an error neither cleared nor pending. */
  predicate EnabledLate(s: State, w: CqWrite)
    requires ValidState(s)
  {
    w.ie && !s.Csr().cie && WriteCqcsr(s, w).Csr().Error() && !s.dev.regs.ipsr.cip && !s.Csr().busy
  }

  lemma CompleteFaithful(s: State, m: Completion)
    requires Inv(s) && Faithful(s)
    ensures Faithful(Complete(s, m).0)
  {
    CompleteFromFaithful(s, 0, m);
    CompleteFromKeeps(s, 0, m);
    hide Resume, CompleteFrom, Faithful, Ledger, ValidDevice, Pow2;
    if !CompleteFrom(s, 0, m).1 { ResumeFaithful(CompleteFrom(s, 0, m).0); }
  }

  lemma ExpireFaithful(s: State, vector: nat)
    requires Inv(s) && Faithful(s)
    ensures Faithful(Expire(s, vector))
  {
    ExpireFromFaithful(s, 0, vector);
    ExpireFromKeeps(s, 0, vector);
    hide Resume, ExpireFrom, Ledger, AllAnnounced, FenceActs, FenceWords, ValidDevice, Pow2;
    var s1 := ExpireFrom(s, 0, vector);
    DidFaithful(s1.(timeout := true), TimedOut);
    TimedOutKeeps(s1);
    ResumeFaithful(Did(s1.(timeout := true), TimedOut));
  }

  lemma ControlFaithfulIff(s: State, w: CqWrite)
    requires ValidState(s) && Faithful(s)
    ensures FenceWords(WriteCqcsr(s, w).dev.mem.stores) == FenceActs(WriteCqcsr(s, w).trace)
    ensures AllAnnounced(WriteCqcsr(s, w).dev) <==> !EnabledLate(s, w)
  {
    hide FenceWords, FenceActs, ValidDevice, Pow2;
    ActsGrow(s.trace, Started);
    OthersUnchanged(s.dev, WriteCqcsr(s, w).dev);
  }

  lemma OthersUnchanged(d: Device, d': Device)
    requires d'.regs == d.regs.(cqcsr := d'.regs.cqcsr)
    ensures OthersAnnounced(d', CommandUnit) == OthersAnnounced(d, CommandUnit)
  {
  }

  /** A step keeps memory and trace in agreement, and every error signalled: exactly unless it enables
      interrupts late. */
  lemma StepFaithfulIff(s: State, e: Event)
    requires Inv(s) && Legal(s, e) && Faithful(s) && (e.Elsewhere? ==> Faithful(s.(dev := e.dev)))
    ensures FenceWords(Step(s, e).dev.mem.stores) == FenceActs(Step(s, e).trace)
    ensures AllAnnounced(Step(s, e).dev) <==> !(e.Control? && EnabledLate(s, e.w))
  {
    hide Process, Complete, Expire, WriteCqcsr, FenceWords, FenceActs, ValidDevice, AllAnnounced, Ledger, Pow2;
    match e {
      case Commands(fetched) => ProcessFaithful(s, fetched);
      case Completed(m) => CompleteFaithful(s, m);
      case Expired(vector) => ExpireFaithful(s, vector);
      case Control(w) => ControlFaithfulIff(s, w);
      case _ =>
    }
  }
}
