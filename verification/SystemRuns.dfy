/** Runs of the whole device: the command queue with its fences beside the fault queue, the page queue,
    the interrupts and every register write that concerns them. */
module SystemRuns {
  import opened Bits
  import opened Interrupts
  import opened RingMemory
  import opened FaultQueue
  import opened PageQueue
  import opened CommandQueue
  import F = FenceOrder
  import Q = QueueRuns
  import V = QueueDevice

  /** A step of the command queue, or of the rest of the device. */
  datatype Event = Command(e: F.Event) | Other(o: Q.Event)

  /** The data of the fence goes to memory outside the queues that are on. */
  predicate FenceOutside(d: Device, f: Fence)
    requires ValidDevice(d)
  {
    f.av ==>
      && (d.regs.fqcsr.on ==> Outside(d.regs.fq, Q.FQ_LG, FenceStore(f.addr, f.data)))
      && (d.regs.pqcsr.on ==> Outside(d.regs.pq, Q.PQ_LG, FenceStore(f.addr, f.data)))
  }

  predicate WaitsOutside(s: State)
    requires ValidState(s)
  {
    s.waiting ==> FenceOutside(s.dev, s.fence)
  }

  /** What is asked of software: of each part what its own runs ask, and that fences, when they are fetched
      and while they wait, aim outside the queues. Errors of the command queue are its own steps here. */
  predicate Legal(s: State, v: Event)
    requires F.Inv(s)
  {
    match v
    case Command(e) =>
      && !e.Elsewhere? && F.Legal(s, e)
      && (e.Commands? && e.fetched.Loaded? && e.fetched.cmd.FenceC? ==> FenceOutside(s.dev, e.fetched.cmd.fence))
    case Other(e) => !e.CommandError? && Q.Legal(s.dev, e) && (s.waiting ==> FenceOutside(Q.Step(s.dev, e), s.fence))
  }

  function Step(s: State, v: Event): (s': State)
    requires F.Inv(s) && Legal(s, v)
    ensures ValidState(s')
  {
    match v
    case Command(e) => F.Step(s, e)
    case Other(e) => OtherKeepsCommands(s.dev, e); s.(dev := Q.Step(s.dev, e))
  }

  /** Software enables the interrupts of a unit over an error that is neither cleared nor pending. */
  predicate Late(s: State, v: Event)
    requires F.Inv(s)
  {
    match v
    case Command(e) => e.Control? && V.EnabledLate(s, e.w)
    case Other(e) => Q.EnabledLate(s.dev, e)
  }

  // ---------------------------------------------------------------- other steps leave the command queue alone

  lemma AcknowledgeKeepsCsr(d: Device, u: Unit)
    requires ValidDevice(d)
    ensures Acknowledge(d, u).regs.cqcsr == d.regs.cqcsr && V.FenceWords(Acknowledge(d, u).mem.stores) == V.FenceWords(d.mem.stores)
  {
    hide GenerateInterrupt, V.FenceWords;
    var d1 := d.(regs := d.regs.(ipsr := Clear(d.regs.ipsr, u)));
    InterruptKeepsCsr(d1, u);
    V.InterruptStoresNoFence(d1, u);
  }

  lemma IpsrKeepsCsr(d: Device, w: Ipsr)
    requires ValidDevice(d)
    ensures WriteIpsr(d, w).regs.cqcsr == d.regs.cqcsr && V.FenceWords(WriteIpsr(d, w).mem.stores) == V.FenceWords(d.mem.stores)
  {
    hide Acknowledge, ValidDevice, V.FenceWords;
    AcknowledgeKeepsCsr(d, CommandUnit);
    var d1 := if w.cip then Acknowledge(d, CommandUnit) else d;
    AcknowledgeKeepsCsr(d1, FaultUnit);
    var d2 := if w.fip then Acknowledge(d1, FaultUnit) else d1;
    AcknowledgeKeepsCsr(d2, PageUnit);
    var d3 := if w.pip then Acknowledge(d2, PageUnit) else d2;
    AcknowledgeKeepsCsr(d3, HpmUnit);
  }

  lemma PageKeepsCsr(d: Device, rec: PageRecord)
    requires ValidDevice(d)
    ensures var d' := PageArrives(d, rec);
            d'.regs.cqcsr == d.regs.cqcsr && V.FenceWords(d'.mem.stores) == V.FenceWords(d.mem.stores)
  {
    hide GenerateInterrupt, V.FenceWords, Pow2, Low, Or;
    if d.regs.pqcsr.on && !d.regs.pqcsr.mf && !d.regs.pqcsr.of {
      NextInRing(d.regs.pq, d.regs.pq.tail);
      V.WordsGrow(d.mem.stores, PageStore(d.regs.pq.SlotAddr(d.regs.pq.tail, PQ_ENTRY_SZ), rec));
      InterruptKeepsCsr(Paged(d, rec), PageUnit);
      V.InterruptStoresNoFence(Paged(d, rec), PageUnit);
    }
  }

  /** Steps elsewhere leave `cqcsr` and the data of fences alone. */
  lemma OtherKeepsCommands(d: Device, e: Q.Event)
    requires ValidDevice(d) && Q.Legal(d, e) && !e.CommandError?
    ensures var d' := Q.Step(d, e); d'.regs.cqcsr == d.regs.cqcsr && V.FenceWords(d'.mem.stores) == V.FenceWords(d.mem.stores)
  {
    hide ReportFault, GenerateInterrupt, PageArrives, WriteIpsr, DoMsi, Low, Pow2, Q.QueuesApart, V.FenceWords;
    match e {
      case Fault(rec, dtf) => ReportKeepsCsr(d, rec, dtf); V.ReportStoresNoFence(d, rec, dtf);
      case Page(rec) => PageKeepsCsr(d, rec);
      case ClearPending(w) => IpsrKeepsCsr(d, w);
      case VectorControl(vec, _) => MsiKeepsCsr(d, d.regs.msiTable[vec]); V.MsiStoresNoFence(d, d.regs.msiTable[vec]);
      case _ =>
    }
  }

  // ---------------------------------------------------------------- fences leave the queues in order

  /** A change of `cqcsr` is none to the queues. */
  lemma CsrIsSound(s: State, c: CqCsr, f: nat, p: nat)
    requires ValidState(s) && Q.Sound(s.dev, f, p)
    ensures Q.Sound(WithCsr(s, c).dev, f, p)
  {
    hide Q.FaultsConserved, Q.PagesConserved, Aligned, Outside, Q.Apart;
  }

  lemma RaisedIsSound(s: State, already: bool, c: CqCsr, f: nat, p: nat)
    requires ValidState(s) && c.cqon == s.Csr().cqon && c.cqen == s.Csr().cqen && c.busy == s.Csr().busy && c.cie == s.Csr().cie
    requires Q.Sound(s.dev, f, p)
    ensures Q.Sound(Raised(s, already, c).dev, f, p)
  {
    hide Q.Sound, GenerateInterrupt;
    CsrIsSound(s, c, f, p);
    Q.InterruptKeeps(WithCsr(s, c).dev, CommandUnit, f, p);
  }

  lemma FenceStoreIsSound(s: State, fence: Fence, f: nat, p: nat)
    requires ValidState(s) && Q.Sound(s.dev, f, p) && FenceOutside(s.dev, fence)
    ensures Q.Sound(FenceStores(s, fence).dev, f, p)
  {
    hide Q.FaultsConserved, Q.PagesConserved, Aligned, Outside, Q.Apart;
    if fence.av {
      var d, op := s.dev, FenceStore(fence.addr, fence.data);
      if d.regs.fqcsr.on { Q.FaultsSame(d.regs.fq, d.mem.stores, op, f); }
      if d.regs.pqcsr.on { Q.PagesSame(d.regs.pq, d.mem.stores, op, p); }
    }
  }

  lemma FenceEndsSound(s: State, fence: Fence, f: nat, p: nat)
    requires ValidState(s) && Q.Sound(s.dev, f, p) && FenceOutside(s.dev, fence)
    ensures Q.Sound(FenceEnds(s, fence).0.dev, f, p)
  {
    hide Q.Sound, Raised, FenceStores, FenceOutside, ValidDevice;
    if s.timeout {
      RaisedIsSound(s, s.Csr().cmd_to, s.Csr().(cmd_to := true), f, p);
    } else {
      var s1 := FenceSyncs(s, fence);
      RaisedIsSound(s1, s1.Csr().cqmf, s1.Csr().(cqmf := true), f, p);
      FenceStoreIsSound(s1, fence, f, p);
      var s2 := FenceStores(s1, fence);
      RaisedIsSound(s2, s2.Csr().fence_w_ip || !fence.wsi, s2.Csr().(fence_w_ip := true), f, p);
    }
  }

  /** A fence that is taken up leaves the queues in order, and aims outside them if it waits. */
  lemma DoFenceSound(s: State, fence: Fence, f: nat, p: nat)
    requires ValidState(s) && Q.Sound(s.dev, f, p) && FenceOutside(s.dev, fence)
    ensures var s1 := DoFence(s, fence).0; Q.Sound(s1.dev, f, p) && WaitsOutside(s1)
  {
    hide Q.Sound, FenceEnds, FenceOutside, AnyBusy, ValidDevice;
    if !AnyBusy(s.tags) { FenceEndsSound(s.(waiting := false), fence, f, p); }
  }

  lemma ResumeSound(s: State, f: nat, p: nat)
    requires F.Inv(s) && Q.Sound(s.dev, f, p) && WaitsOutside(s)
    ensures Q.Sound(Resume(s).dev, f, p) && WaitsOutside(Resume(s))
  {
    hide Q.Sound, DoFence, FenceOutside, AnyBusy, ValidDevice, F.Ledger, FreeTag, Pow2, Low;
    if s.waiting && !AnyBusy(s.tags) {
      DoFenceSound(s, s.fence, f, p);
      var (s1, stays) := DoFence(s, s.fence);
      NextInRing(s1.cq, s1.cq.head);
      var s2 := if stays then s1 else Retire(s1, true);
      CsrIsSound(s2, s2.Csr().(cqon := s2.Csr().cqen, busy := false), f, p);
    }
  }

  lemma {:induction false} CompletionKeepsDevice(s: State, i: nat, m: Completion)
    requires ValidState(s) && i <= |s.tags|
    ensures var s1 := CompleteFrom(s, i, m).0; s1.dev == s.dev && s1.fence == s.fence
    decreases |s.tags| - i
  {
    hide ValidDevice, Pow2, BitSet, Accepts, Counted;
    if i < |s.tags| {
      if !BitSet(m.vector, i) { CompletionKeepsDevice(s, i + 1, m); }
      else if Accepts(s.tags[i], m) { CompletionKeepsDevice(Credited(s, i, m), i + 1, m); }
    }
  }

  lemma {:induction false} ExpiryKeepsDevice(s: State, i: nat, vector: nat)
    requires ValidState(s) && i <= |s.tags|
    ensures var s1 := ExpireFrom(s, i, vector); s1.dev == s.dev && s1.fence == s.fence
    decreases |s.tags| - i
  {
    hide ValidDevice, Pow2, BitSet;
    if i < |s.tags| {
      if !BitSet(vector, i) { ExpiryKeepsDevice(s, i + 1, vector); }
      else { ExpiryKeepsDevice(Lapsed(s, i), i + 1, vector); }
    }
  }

  lemma CompleteSound(s: State, m: Completion, f: nat, p: nat)
    requires F.Inv(s) && Q.Sound(s.dev, f, p) && WaitsOutside(s)
    ensures var s1 := Complete(s, m).0; Q.Sound(s1.dev, f, p) && WaitsOutside(s1)
  {
    hide Q.Sound, Resume, CompleteFrom, FenceOutside, F.Ledger, ValidDevice, Pow2;
    CompletionKeepsDevice(s, 0, m);
    F.CompleteFromKeeps(s, 0, m);
    if !CompleteFrom(s, 0, m).1 { ResumeSound(CompleteFrom(s, 0, m).0, f, p); }
  }

  lemma ExpireSound(s: State, vector: nat, f: nat, p: nat)
    requires F.Inv(s) && Q.Sound(s.dev, f, p) && WaitsOutside(s)
    ensures Q.Sound(Expire(s, vector).dev, f, p) && WaitsOutside(Expire(s, vector))
  {
    hide Q.Sound, Resume, ExpireFrom, FenceOutside, F.Ledger, ValidDevice, Pow2;
    ExpiryKeepsDevice(s, 0, vector);
    F.ExpireFromKeeps(s, 0, vector);
    F.TimedOutKeeps(ExpireFrom(s, 0, vector));
    ResumeSound(Did(ExpireFrom(s, 0, vector).(timeout := true), TimedOut), f, p);
  }

  lemma ExecuteSound(s: State, c: CommandQueue.Command, f: nat, p: nat)
    requires ValidState(s) && s.Csr().cqon && !s.waiting && Q.Sound(s.dev, f, p) && (c.FenceC? ==> FenceOutside(s.dev, c.fence))
    ensures Q.Sound(Execute(s, c).dev, f, p) && WaitsOutside(Execute(s, c))
  {
    hide Q.Sound, DoFence, FenceOutside, Signal, ValidDevice, FreeTag, Pow2, Low;
    if IllegalHere(s, c) { RaisedIsSound(s, false, s.Csr().(cmd_ill := true), f, p); }
    else if c.FenceC? { DoFenceSound(s, c.fence, f, p); }
  }

  lemma ProcessSound(s: State, fetched: Fetched, f: nat, p: nat)
    requires ValidState(s) && Q.Sound(s.dev, f, p) && WaitsOutside(s)
    requires fetched.Loaded? && fetched.cmd.FenceC? ==> FenceOutside(s.dev, fetched.cmd.fence)
    ensures Q.Sound(Process(s, fetched).dev, f, p) && WaitsOutside(Process(s, fetched))
  {
    hide Q.Sound, Execute, FenceOutside, Signal, ValidDevice, Pow2, Low, Or;
    if Ready(s) && s.cq.head != s.cq.tail {
      RaisedIsSound(s, false, s.Csr().(cqmf := true), f, p);
      if fetched.Loaded? { ExecuteSound(s, fetched.cmd, f, p); }
    }
  }

  lemma ControlSound(s: State, w: CqWrite, f: nat, p: nat)
    requires ValidState(s) && Q.Sound(s.dev, f, p) && WaitsOutside(s)
    ensures Q.Sound(WriteCqcsr(s, w).dev, f, p) && WaitsOutside(WriteCqcsr(s, w))
  {
    hide Q.Sound, CqCsrAfter, Outside;
    CsrIsSound(s, CqCsrAfter(s.Csr(), w, s.waiting), f, p);
  }

  // ---------------------------------------------------------------- steps

  /** The command queue is consistent and its trace lawful; both record queues are first-in first-out;
      and a waiting fence aims outside them. */
  predicate Ordered(s: State, f: nat, p: nat) { F.Inv(s) && Q.Sound(s.dev, f, p) && WaitsOutside(s) }

  function FaultsRead(s: State, v: Event, f: nat): nat
    requires F.Inv(s)
  {
    if v.Other? then Q.FaultsRead(s.dev, v.o, f) else f
  }

  function PagesRead(s: State, v: Event, p: nat): nat
    requires F.Inv(s)
  {
    if v.Other? then Q.PagesRead(s.dev, v.o, p) else p
  }

  lemma CommandOrders(s: State, e: F.Event, f: nat, p: nat)
    requires Ordered(s, f, p) && Legal(s, Command(e))
    ensures Ordered(F.Step(s, e), f, p)
  {
    hide Q.Sound, FenceOutside, Process, Complete, Expire, WriteCqcsr, F.Ledger, ValidDevice, Pow2, Low;
    F.StepKeeps(s, e);
    match e {
      case Commands(fetched) => ProcessSound(s, fetched, f, p);
      case Completed(m) => CompleteSound(s, m, f, p);
      case Expired(vector) => ExpireSound(s, vector, f, p);
      case Control(w) => ControlSound(s, w, f, p);
      case _ =>
    }
  }

  /** Every step keeps all three queues in order. */
  lemma StepOrders(s: State, v: Event, f: nat, p: nat)
    requires Ordered(s, f, p) && Legal(s, v)
    ensures Ordered(Step(s, v), FaultsRead(s, v, f), PagesRead(s, v, p))
  {
    if v.Command? {
      CommandOrders(s, v.e, f, p);
    } else {
      hide Q.Sound, FenceOutside, Q.Step, F.Ledger;
      Q.StepKeeps(s.dev, v.o, f, p);
      OtherKeepsCommands(s.dev, v.o);
      F.StepKeeps(s, F.Elsewhere(Q.Step(s.dev, v.o)));
    }
  }

  /** And keeps memory in agreement with the trace and every error signalled, exactly unless it enables
      interrupts late. */
  lemma StepFaithfulIff(s: State, v: Event)
    requires F.Inv(s) && Legal(s, v) && V.Faithful(s)
    ensures V.FenceWords(Step(s, v).dev.mem.stores) == V.FenceActs(Step(s, v).trace)
    ensures AllAnnounced(Step(s, v).dev) <==> !Late(s, v)
  {
    hide V.FenceWords, V.FenceActs, AllAnnounced, F.Step, Q.Step, F.Ledger, FenceOutside;
    match v {
      case Command(e) => V.StepFaithfulIff(s, e);
      case Other(e) => Q.StepAnnouncesIff(s.dev, e); OtherKeepsCommands(s.dev, e);
    }
  }

  // ---------------------------------------------------------------- runs

  ghost predicate LegalRun(s: State, vs: seq<Event>, f: nat, p: nat)
    requires Ordered(s, f, p)
    decreases |vs|
  {
    vs == [] ||
    (Legal(s, vs[0]) && (StepOrders(s, vs[0], f, p); LegalRun(Step(s, vs[0]), vs[1..], FaultsRead(s, vs[0], f), PagesRead(s, vs[0], p))))
  }

  /** The state and the numbers of records read after a run. */
  ghost function Run(s: State, vs: seq<Event>, f: nat, p: nat): (State, nat, nat)
    requires Ordered(s, f, p) && LegalRun(s, vs, f, p)
    decreases |vs|
  {
    if vs == [] then (s, f, p)
    else StepOrders(s, vs[0], f, p); Run(Step(s, vs[0]), vs[1..], FaultsRead(s, vs[0], f), PagesRead(s, vs[0], p))
  }

  ghost predicate NeverLate(s: State, vs: seq<Event>, f: nat, p: nat)
    requires Ordered(s, f, p) && LegalRun(s, vs, f, p)
    decreases |vs|
  {
    vs == [] ||
    (!Late(s, vs[0]) && (StepOrders(s, vs[0], f, p); NeverLate(Step(s, vs[0]), vs[1..], FaultsRead(s, vs[0], f), PagesRead(s, vs[0], p))))
  }

  /** Over every run of the whole device the command queue stays consistent and its trace lawful, and both
      record queues first-in first-out. */
  lemma {:induction false} RunOrders(s: State, vs: seq<Event>, f: nat, p: nat)
    requires Ordered(s, f, p) && LegalRun(s, vs, f, p)
    ensures var (s', f', p') := Run(s, vs, f, p); Ordered(s', f', p')
    decreases |vs|
  {
    hide Ordered, Legal, Step, FaultsRead, PagesRead;
    if vs != [] {
      OrderedInv(s, f, p);
      StepOrders(s, vs[0], f, p);
      RunOrders(Step(s, vs[0]), vs[1..], FaultsRead(s, vs[0], f), PagesRead(s, vs[0], p));
    }
  }

  lemma OrderedInv(s: State, f: nat, p: nat)
    requires Ordered(s, f, p)
    ensures F.Inv(s)
  {
  }

  /** And unless software enables interrupts late, in every state it reaches each error of an enabled unit,
      the command queue's included, is pending, and memory holds the data of just the fences that took
      effect. */
  lemma {:induction false} RunFaithful(s: State, vs: seq<Event>, f: nat, p: nat)
    requires Ordered(s, f, p) && LegalRun(s, vs, f, p) && NeverLate(s, vs, f, p) && V.Faithful(s)
    ensures V.Faithful(Run(s, vs, f, p).0)
    decreases |vs|
  {
    hide Ordered, Legal, Step, FaultsRead, PagesRead, Late, V.FenceWords, V.FenceActs, AllAnnounced;
    if vs != [] {
      OrderedInv(s, f, p);
      StepFaithfulIff(s, vs[0]);
      StepOrders(s, vs[0], f, p);
      RunFaithful(Step(s, vs[0]), vs[1..], FaultsRead(s, vs[0], f), PagesRead(s, vs[0], p));
    }
  }

  /** After reset, with all queues off and nothing stored, a run can start. */
  lemma ResetStarts(s: State)
    requires F.Fresh(s) && !s.dev.regs.fqcsr.on && !s.dev.regs.pqcsr.on && s.dev.mem.stores == []
    requires !s.Csr().Error() && !s.dev.regs.fqcsr.Error() && !s.dev.regs.pqcsr.Error()
    ensures Ordered(s, 0, 0) && V.Faithful(s)
  {
    F.FreshIsConsistent(s);
    Q.OffIsSound(s.dev);
    hide F.Inv, Q.Sound;
  }
}
