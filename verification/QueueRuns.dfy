/** Runs of faults, page requests, interrupts and register writes: both queues are first-in first-out,
    an error stops a queue, and no unit's error goes unsignalled. */
module QueueRuns {
  import opened Bits
  import opened Common
  import opened Interrupts
  import opened RingMemory
  import opened FaultQueue
  import opened PageQueue

  const FQ_LG: nat := 5
  const PQ_LG: nat := 4

  lemma EntrySizes()
    ensures Pow2(FQ_LG) == FQ_ENTRY_SZ && Pow2(PQ_LG) == PQ_ENTRY_SZ
  {
    assert Pow2(4) == 2 * Pow2(3) && Pow2(3) == 2 * Pow2(2);
  }

  // ---------------------------------------------------------------- what the queues hold

  /** Software finds just `recs` in the slots `u`. */
  predicate HoldFaults(u: seq<Option<StoreOp>>, recs: seq<FaultRecord>) {
    |u| == |recs| && forall k | 0 <= k < |u| :: u[k].Some? && u[k].value.FaultStore? && u[k].value.record == recs[k]
  }

  predicate HoldPages(u: seq<Option<StoreOp>>, recs: seq<PageRecord>) {
    |u| == |recs| && forall k | 0 <= k < |u| :: u[k].Some? && u[k].value.PageStore? && u[k].value.page == recs[k]
  }

  predicate Apart(r: Ring, s: Ring) {
    || r.ppn * PAGE_SIZE + r.Entries() * FQ_ENTRY_SZ <= s.ppn * PAGE_SIZE
    || s.ppn * PAGE_SIZE + s.Entries() * PQ_ENTRY_SZ <= r.ppn * PAGE_SIZE
  }

  predicate MsiOutside(d: Device, r: Ring, lg: nat)
    requires ValidDevice(d)
  {
    forall v | 0 <= v < VECTORS :: Outside(r, lg, MsiStore(d.regs.msiTable[v].addr, d.regs.msiTable[v].data))
  }

  /** Software has aligned each queue it turned on, and keeps the queues and the MSI addresses apart. */
  predicate QueuesApart(d: Device)
    requires ValidDevice(d)
  {
    && (d.regs.fqcsr.on ==> Aligned(d.regs.fq, FQ_LG) && MsiOutside(d, d.regs.fq, FQ_LG))
    && (d.regs.pqcsr.on ==> Aligned(d.regs.pq, PQ_LG) && MsiOutside(d, d.regs.pq, PQ_LG))
    && (d.regs.fqcsr.on && d.regs.pqcsr.on ==> Apart(d.regs.fq, d.regs.pq))
  }

  /** Of all fault records written the first `f` were read, and the queue holds the rest in order. */
  predicate FaultsConserved(r: Ring, stores: seq<StoreOp>, f: nat)
    requires ValidRing(r, true)
  {
    f <= |FaultsIn(stores)| && HoldFaults(Unread(r, FQ_LG, stores), FaultsIn(stores)[f..])
  }

  /** Of all page requests written the first `p` were read, and the queue holds the rest in order. */
  predicate PagesConserved(r: Ring, stores: seq<StoreOp>, p: nat)
    requires ValidRing(r, true)
  {
    p <= |PagesIn(stores)| && HoldPages(Unread(r, PQ_LG, stores), PagesIn(stores)[p..])
  }

  predicate Conserved(d: Device, f: nat, p: nat)
    requires ValidDevice(d)
  {
    && (d.regs.fqcsr.on ==> FaultsConserved(d.regs.fq, d.mem.stores, f))
    && (d.regs.pqcsr.on ==> PagesConserved(d.regs.pq, d.mem.stores, p))
  }

  predicate Sound(d: Device, f: nat, p: nat) { ValidDevice(d) && QueuesApart(d) && Conserved(d, f, p) }

  // ---------------------------------------------------------------- one record, one interrupt

  lemma FaultsSame(r: Ring, stores: seq<StoreOp>, op: StoreOp, f: nat)
    requires ValidRing(r, true) && FaultsConserved(r, stores, f)
    requires Aligned(r, FQ_LG) && Outside(r, FQ_LG, op) && !op.FaultStore?
    ensures FaultsConserved(r, stores + [op], f)
  {
    StoreElsewhere(r, FQ_LG, stores, op);
    assert (stores + [op])[..|stores|] == stores;
  }

  lemma PagesSame(r: Ring, stores: seq<StoreOp>, op: StoreOp, p: nat)
    requires ValidRing(r, true) && PagesConserved(r, stores, p)
    requires Aligned(r, PQ_LG) && Outside(r, PQ_LG, op) && !op.PageStore?
    ensures PagesConserved(r, stores + [op], p)
  {
    StoreElsewhere(r, PQ_LG, stores, op);
    assert (stores + [op])[..|stores|] == stores;
  }

  lemma FaultAppended(r: Ring, stores: seq<StoreOp>, op: StoreOp, f: nat)
    requires ValidRing(r, true) && FaultsConserved(r, stores, f) && !r.Full() && Aligned(r, FQ_LG)
    requires op.FaultStore? && op.addr == r.SlotAddr(r.tail, FQ_ENTRY_SZ)
    ensures ValidRing(r.(tail := r.Next(r.tail)), true) && FaultsConserved(r.(tail := r.Next(r.tail)), stores + [op], f)
  {
    EntrySizes();
    StoreAtTail(r, FQ_LG, stores, op);
    assert (stores + [op])[..|stores|] == stores;
    hide Unread, Aligned, Pow2, Low, LastAt;
  }

  lemma PageAppended(r: Ring, stores: seq<StoreOp>, op: StoreOp, p: nat)
    requires ValidRing(r, true) && PagesConserved(r, stores, p) && !r.Full() && Aligned(r, PQ_LG)
    requires op.PageStore? && op.addr == r.SlotAddr(r.tail, PQ_ENTRY_SZ)
    ensures ValidRing(r.(tail := r.Next(r.tail)), true) && PagesConserved(r.(tail := r.Next(r.tail)), stores + [op], p)
  {
    EntrySizes();
    StoreAtTail(r, PQ_LG, stores, op);
    assert (stores + [op])[..|stores|] == stores;
    hide Unread, Aligned, Pow2, Low, LastAt;
  }

  lemma MsiKeeps(d: Device, v: nat, f: nat, p: nat)
    requires Sound(d, f, p) && v < VECTORS
    ensures var e := d.regs.msiTable[v]; Sound(Stored(d, MsiStore(e.addr, e.data)), f, p)
  {
    var op := MsiStore(d.regs.msiTable[v].addr, d.regs.msiTable[v].data);
    hide FaultsConserved, PagesConserved, Aligned, Outside, Apart;
    if d.regs.fqcsr.on { FaultsSame(d.regs.fq, d.mem.stores, op, f); }
    if d.regs.pqcsr.on { PagesSame(d.regs.pq, d.mem.stores, op, p); }
  }

  lemma FaultOutsidePages(d: Device, op: StoreOp)
    requires ValidDevice(d) && QueuesApart(d) && d.regs.fqcsr.on && d.regs.pqcsr.on
    requires op.FaultStore? && op.addr == d.regs.fq.SlotAddr(d.regs.fq.tail, FQ_ENTRY_SZ)
    ensures Outside(d.regs.pq, PQ_LG, op)
  {
    EntrySizes();
    SlotAddress(d.regs.fq, FQ_LG, d.regs.fq.tail);
    SlotEnd(d.regs.fq.tail, d.regs.fq.Entries(), FQ_ENTRY_SZ);
  }

  lemma PageOutsideFaults(d: Device, op: StoreOp)
    requires ValidDevice(d) && QueuesApart(d) && d.regs.fqcsr.on && d.regs.pqcsr.on
    requires op.PageStore? && op.addr == d.regs.pq.SlotAddr(d.regs.pq.tail, PQ_ENTRY_SZ)
    ensures Outside(d.regs.fq, FQ_LG, op)
  {
    EntrySizes();
    SlotAddress(d.regs.pq, PQ_LG, d.regs.pq.tail);
    SlotEnd(d.regs.pq.tail, d.regs.pq.Entries(), PQ_ENTRY_SZ);
  }

  lemma EnqueueKeeps(d: Device, rec: FaultRecord, f: nat, p: nat)
    requires Sound(d, f, p) && d.regs.fqcsr.on
    ensures Sound(Enqueued(d, rec), f, p)
  {
    hide FaultsConserved, PagesConserved, Low, Or, Pow2;
    NextInRing(d.regs.fq, d.regs.fq.tail);
    var op := FaultStore(d.regs.fq.SlotAddr(d.regs.fq.tail, FQ_ENTRY_SZ), rec);
    if !d.regs.fq.Full() && StoreStatus(d.regs.pas, d.mem, op.addr).Okay? {
      FaultAppended(d.regs.fq, d.mem.stores, op, f);
      if d.regs.pqcsr.on {
        FaultOutsidePages(d, op);
        PagesSame(d.regs.pq, d.mem.stores, op, p);
      }
    }
  }

  lemma PagedKeeps(d: Device, rec: PageRecord, f: nat, p: nat)
    requires Sound(d, f, p) && d.regs.pqcsr.on
    ensures Sound(Paged(d, rec), f, p)
  {
    hide FaultsConserved, PagesConserved, Low, Or, Pow2;
    NextInRing(d.regs.pq, d.regs.pq.tail);
    var op := PageStore(d.regs.pq.SlotAddr(d.regs.pq.tail, PQ_ENTRY_SZ), rec);
    if !d.regs.pq.Full() && StoreStatus(d.regs.pas, d.mem, op.addr).Okay? {
      PageAppended(d.regs.pq, d.mem.stores, op, p);
      if d.regs.fqcsr.on {
        PageOutsideFaults(d, op);
        FaultsSame(d.regs.fq, d.mem.stores, op, f);
      }
    }
  }

  /** Signalling a unit, with all it sets off, keeps both queues in order. */
  lemma InterruptKeeps(d: Device, u: Unit, f: nat, p: nat)
    requires Sound(d, f, p)
    ensures Sound(GenerateInterrupt(d, u), f, p)
    decreases ClearBits(d.regs.ipsr), 0
  {
    hide FaultsConserved, PagesConserved, Aligned, Outside, Apart;
    if !Pending(d.regs.ipsr, u) && EnabledFor(d.regs, u) {
      var d1 := d.(regs := d.regs.(ipsr := Raise(d.regs.ipsr, u)));
      DoMsiKeeps(d1, VectorOf(d.regs, u), f, p);
    }
  }

  lemma DoMsiKeeps(d: Device, v: nat, f: nat, p: nat)
    requires Sound(d, f, p) && v < VECTORS
    ensures Sound(DoMsi(d, d.regs.msiTable[v]), f, p)
    decreases ClearBits(d.regs.ipsr), 2
  {
    MsiKeeps(d, v, f, p);
    var e := d.regs.msiTable[v];
    hide Sound;
    if StoreStatus(d.regs.pas, d.mem, e.addr).AccessFault? { ReportKeeps(d, MsiFault(e.addr), false, f, p); }
  }

  lemma ReportKeeps(d: Device, rec: FaultRecord, dtf: bool, f: nat, p: nat)
    requires Sound(d, f, p)
    ensures Sound(ReportFault(d, rec, dtf), f, p)
    decreases ClearBits(d.regs.ipsr), 1
  {
    hide QueuesApart, Conserved;
    if FaultsAccepted(d, rec.cause, dtf) {
      EnqueueKeeps(d, Normal(rec), f, p);
      InterruptKeeps(Enqueued(d, Normal(rec)), FaultUnit, f, p);
    }
  }

  // ---------------------------------------------------------------- runs

  /** A step of the IOMMU, or a register write of software. */
  datatype Event =
    | Fault(rec: FaultRecord, dtf: bool)
    | Page(page: PageRecord)
    | CommandError(mf: bool, to: bool, ill: bool, fence: bool)
    | ReadFaults(n: nat)
    | ReadPages(n: nat)
    | FaultCsr(w: CsrWrite)
    | PageCsr(w: CsrWrite)
    | FaultBase(ppn: nat, log2szm1: nat)
    | PageBase(ppn: nat, log2szm1: nat)
    | ClearPending(bits: Ipsr)
    | VectorControl(vec: nat, masked: bool)

  /** What is asked of software, and of nothing else: it reads only records that are there, starts a
      queue with the head at 0 in memory of its own, and names existing vectors and sizes. */
  predicate Legal(d: Device, e: Event)
    requires ValidDevice(d)
  {
    match e
    case ReadFaults(n) => d.regs.fqcsr.on && n <= Used(d.regs.fq)
    case ReadPages(n) => d.regs.pqcsr.on && n <= Used(d.regs.pq)
    case FaultCsr(w) => w.en && !d.regs.fqcsr.en ==> d.regs.fq.head == 0 && QueuesApart(WriteFqcsr(d, w))
    case PageCsr(w) => w.en && !d.regs.pqcsr.en ==> d.regs.pq.head == 0 && QueuesApart(WritePqcsr(d, w))
    case FaultBase(_, lg) => lg < 32
    case PageBase(_, lg) => lg < 32
    case VectorControl(vec, _) => vec < VECTORS
    case _ => true
  }

  function CommandFails(d: Device, e: Event): Device
    requires e.CommandError?
  {
    var c := d.regs.cqcsr;
    d.(regs := d.regs.(cqcsr := c.(cqmf := c.cqmf || e.mf, cmd_to := c.cmd_to || e.to, cmd_ill := c.cmd_ill || e.ill,
                                   fence_w_ip := c.fence_w_ip || e.fence)))
  }

  function Step(d: Device, e: Event): (d': Device)
    requires ValidDevice(d) && Legal(d, e)
    ensures ValidDevice(d')
  {
    match e
    case Fault(rec, dtf) => ReportFault(d, rec, dtf)
    case Page(rec) => PageArrives(d, rec)
    case CommandError(_, _, _, _) => GenerateInterrupt(CommandFails(d, e), CommandUnit)
    case ReadFaults(n) => HeadBound(d.regs.fq, n); d.(regs := d.regs.(fq := Advanced(d.regs.fq, d.regs.fq.head + n)))
    case ReadPages(n) => HeadBound(d.regs.pq, n); d.(regs := d.regs.(pq := Advanced(d.regs.pq, d.regs.pq.head + n)))
    case FaultCsr(w) => WriteFqcsr(d, w)
    case PageCsr(w) => WritePqcsr(d, w)
    case FaultBase(ppn, lg) => d.(regs := d.regs.(fq := Rebased(d.regs.fq, d.regs.fqcsr.on, ppn, lg)))
    case PageBase(ppn, lg) => d.(regs := d.regs.(pq := Rebased(d.regs.pq, d.regs.pqcsr.on, ppn, lg)))
    case ClearPending(w) => WriteIpsr(d, w)
    case VectorControl(vec, masked) => WriteVectorControl(d, vec, masked)
  }

  lemma HeadBound(r: Ring, n: nat)
    ensures Advanced(r, r.head + n).head < r.Entries()
  {
    LowBound(r.head + n, r.Lg());
  }

  /** How many fault records were read, a restart of the queue giving up those unread. */
  function FaultsRead(d: Device, e: Event, f: nat): nat
    requires ValidDevice(d)
  {
    match e
    case ReadFaults(n) => f + n
    case FaultCsr(w) => if w.en && !d.regs.fqcsr.en then |FaultsIn(d.mem.stores)| else f
    case _ => f
  }

  function PagesRead(d: Device, e: Event, p: nat): nat
    requires ValidDevice(d)
  {
    match e
    case ReadPages(n) => p + n
    case PageCsr(w) => if w.en && !d.regs.pqcsr.en then |PagesIn(d.mem.stores)| else p
    case _ => p
  }

  /** No step loses, repeats, reorders or overwrites a record that was not read. */
  lemma StepKeeps(d: Device, e: Event, f: nat, p: nat)
    requires Sound(d, f, p) && Legal(d, e)
    ensures Sound(Step(d, e), FaultsRead(d, e, f), PagesRead(d, e, p))
  {
    hide ReportFault, GenerateInterrupt, PageArrives, WriteIpsr, WriteVectorControl, QueuesApart, Conserved;
    match e {
      case Fault(rec, dtf) => ReportKeeps(d, rec, dtf, f, p);
      case Page(rec) => PageKeeps(d, rec, f, p);
      case CommandError(_, _, _, _) => CommandErrorKeeps(d, e, f, p);
      case ReadFaults(n) => ReadKeeps(d, e, f, p);
      case ReadPages(n) => ReadKeeps(d, e, f, p);
      case FaultCsr(w) => CsrKeeps(d, e, f, p);
      case PageCsr(w) => CsrKeeps(d, e, f, p);
      case FaultBase(_, _) => BaseKeeps(d, e, f, p);
      case PageBase(_, _) => BaseKeeps(d, e, f, p);
      case ClearPending(w) => IpsrKeeps(d, w, f, p);
      case VectorControl(vec, masked) => VectorKeeps(d, vec, masked, f, p);
    }
  }

  lemma CommandErrorKeeps(d: Device, e: Event, f: nat, p: nat)
    requires Sound(d, f, p) && e.CommandError?
    ensures Sound(GenerateInterrupt(CommandFails(d, e), CommandUnit), f, p)
  {
    hide FaultsConserved, PagesConserved, Aligned, Outside, Apart;
    InterruptKeeps(CommandFails(d, e), CommandUnit, f, p);
  }

  lemma ReadKeeps(d: Device, e: Event, f: nat, p: nat)
    requires Sound(d, f, p) && Legal(d, e) && (e.ReadFaults? || e.ReadPages?)
    ensures Sound(Step(d, e), FaultsRead(d, e, f), PagesRead(d, e, p))
  {
    hide Low, Pow2;
    match e
    case ReadFaults(n) => AdvanceHead(d.regs.fq, FQ_LG, d.mem.stores, n);
    case ReadPages(n) => AdvanceHead(d.regs.pq, PQ_LG, d.mem.stores, n);
  }

  /** A start gives up what is unread and begins with nothing. */
  lemma CsrKeeps(d: Device, e: Event, f: nat, p: nat)
    requires Sound(d, f, p) && Legal(d, e) && (e.FaultCsr? || e.PageCsr?)
    ensures Sound(Step(d, e), FaultsRead(d, e, f), PagesRead(d, e, p))
  {
    hide Low, Pow2;
  }

  lemma BaseKeeps(d: Device, e: Event, f: nat, p: nat)
    requires Sound(d, f, p) && Legal(d, e) && (e.FaultBase? || e.PageBase?)
    ensures Sound(Step(d, e), FaultsRead(d, e, f), PagesRead(d, e, p))
  {
    hide Low, Pow2;
  }

  lemma PageKeeps(d: Device, rec: PageRecord, f: nat, p: nat)
    requires Sound(d, f, p)
    ensures Sound(PageArrives(d, rec), f, p)
  {
    hide QueuesApart, Conserved;
    if d.regs.pqcsr.on && d.regs.pqcsr.en && !d.regs.pqcsr.mf && !d.regs.pqcsr.of {
      PagedKeeps(d, rec, f, p);
      InterruptKeeps(Paged(d, rec), PageUnit, f, p);
    }
  }

  lemma AcknowledgeKeeps(d: Device, u: Unit, f: nat, p: nat)
    requires Sound(d, f, p)
    ensures Sound(Acknowledge(d, u), f, p)
  {
    InterruptKeeps(d.(regs := d.regs.(ipsr := Clear(d.regs.ipsr, u))), u, f, p);
  }

  lemma IpsrKeeps(d: Device, w: Ipsr, f: nat, p: nat)
    requires Sound(d, f, p)
    ensures Sound(WriteIpsr(d, w), f, p)
  {
    hide QueuesApart, Conserved, Acknowledge, ValidDevice;
    AcknowledgeKeeps(d, CommandUnit, f, p);
    var d1 := if w.cip then Acknowledge(d, CommandUnit) else d;
    AcknowledgeKeeps(d1, FaultUnit, f, p);
    var d2 := if w.fip then Acknowledge(d1, FaultUnit) else d1;
    AcknowledgeKeeps(d2, PageUnit, f, p);
    var d3 := if w.pip then Acknowledge(d2, PageUnit) else d2;
    AcknowledgeKeeps(d3, HpmUnit, f, p);
  }

  lemma VectorKeeps(d: Device, vec: nat, masked: bool, f: nat, p: nat)
    requires Sound(d, f, p) && vec < VECTORS
    ensures Sound(WriteVectorControl(d, vec, masked), f, p)
  {
    hide DoMsi, FaultsConserved, PagesConserved, Aligned, Outside, Apart;
    DoMsiKeeps(d, vec, f, p);
  }

  // ---------------------------------------------------------------- the queues over a run

  /** What software finds when it reads `n` fault records: the oldest unread ones, in order. The
      queue never holds as many as it has slots. */
  lemma OldestFaultsFirst(r: Ring, stores: seq<StoreOp>, f: nat, n: nat)
    requires ValidRing(r, true) && FaultsConserved(r, stores, f) && n <= Used(r)
    ensures f + n <= |FaultsIn(stores)| < f + r.Entries()
    ensures HoldFaults(Unread(r, FQ_LG, stores)[..n], FaultsIn(stores)[f..f + n])
  {
    var u, all := Unread(r, FQ_LG, stores), FaultsIn(stores);
    forall k | 0 <= k < n ensures u[..n][k] == u[k] && all[f..f + n][k] == all[f..][k] {}
  }

  lemma OldestPagesFirst(r: Ring, stores: seq<StoreOp>, p: nat, n: nat)
    requires ValidRing(r, true) && PagesConserved(r, stores, p) && n <= Used(r)
    ensures p + n <= |PagesIn(stores)| < p + r.Entries()
    ensures HoldPages(Unread(r, PQ_LG, stores)[..n], PagesIn(stores)[p..p + n])
  {
    var u, all := Unread(r, PQ_LG, stores), PagesIn(stores);
    forall k | 0 <= k < n ensures u[..n][k] == u[k] && all[p..p + n][k] == all[p..][k] {}
  }

  ghost predicate LegalRun(d: Device, es: seq<Event>)
    requires ValidDevice(d)
    decreases |es|
  {
    es == [] || (Legal(d, es[0]) && LegalRun(Step(d, es[0]), es[1..]))
  }

  /** The device and the numbers of records read after a run. */
  ghost function Run(d: Device, es: seq<Event>, f: nat, p: nat): (Device, nat, nat)
    requires ValidDevice(d) && LegalRun(d, es)
    decreases |es|
  {
    if es == [] then (d, f, p) else Run(Step(d, es[0]), es[1..], FaultsRead(d, es[0], f), PagesRead(d, es[0], p))
  }

  /** Over every run both queues stay first-in first-out: read so far, still queued, nothing else. */
  lemma {:induction false} RunKeepsOrder(d: Device, es: seq<Event>, f: nat, p: nat)
    requires Sound(d, f, p) && LegalRun(d, es)
    ensures var (d', f', p') := Run(d, es, f, p); Sound(d', f', p')
    decreases |es|
  {
    if es != [] {
      StepKeeps(d, es[0], f, p);
      RunKeepsOrder(Step(d, es[0]), es[1..], FaultsRead(d, es[0], f), PagesRead(d, es[0], p));
    }
  }

  /** With both queues off, as after reset, nothing is queued. */
  lemma OffIsSound(d: Device)
    requires ValidDevice(d) && !d.regs.fqcsr.on && !d.regs.pqcsr.on
    ensures Sound(d, 0, 0)
  {
  }

  // ---------------------------------------------------------------- an error stops the queue

  /** An interrupt or a fault adds no record to a fault queue in error, and none to the page queue. */
  predicate Quiet(d: Device, d': Device) {
    && (d.regs.fqcsr.Error() ==> d'.regs.fqcsr == d.regs.fqcsr && FaultsIn(d'.mem.stores) == FaultsIn(d.mem.stores))
    && d'.regs.pqcsr == d.regs.pqcsr && PagesIn(d'.mem.stores) == PagesIn(d.mem.stores)
  }

  lemma InterruptIsQuiet(d: Device, u: Unit)
    requires ValidDevice(d)
    ensures Quiet(d, GenerateInterrupt(d, u))
    decreases ClearBits(d.regs.ipsr), 0
  {
    if !Pending(d.regs.ipsr, u) && EnabledFor(d.regs, u) {
      var d1 := d.(regs := d.regs.(ipsr := Raise(d.regs.ipsr, u)));
      MsiIsQuiet(d1, d.regs.msiTable[VectorOf(d.regs, u)]);
    }
  }

  lemma MsiIsQuiet(d: Device, e: MsiEntry)
    requires ValidDevice(d)
    ensures Quiet(d, DoMsi(d, e))
    decreases ClearBits(d.regs.ipsr), 2
  {
    FaultsInStored(d, MsiStore(e.addr, e.data));
    PagesInStored(d, MsiStore(e.addr, e.data));
    if StoreStatus(d.regs.pas, d.mem, e.addr).AccessFault? { ReportIsQuiet(d, MsiFault(e.addr), false); }
  }

  lemma ReportIsQuiet(d: Device, rec: FaultRecord, dtf: bool)
    requires ValidDevice(d)
    ensures Quiet(d, ReportFault(d, rec, dtf))
    decreases ClearBits(d.regs.ipsr), 1
  {
    hide ValidDevice, Pow2, Low, FaultsIn, PagesIn;
    ReportWritesNoPage(d, rec, dtf);
    if FaultsAccepted(d, rec.cause, dtf) {
      EnqueuedIsValid(d, Normal(rec));
      InterruptIsQuiet(Enqueued(d, Normal(rec)), FaultUnit);
    }
  }

  lemma AcknowledgeIsQuiet(d: Device, u: Unit)
    requires ValidDevice(d)
    ensures Quiet(d, Acknowledge(d, u))
  {
    InterruptIsQuiet(d.(regs := d.regs.(ipsr := Clear(d.regs.ipsr, u))), u);
  }

  lemma IpsrIsQuiet(d: Device, w: Ipsr)
    requires ValidDevice(d)
    ensures Quiet(d, WriteIpsr(d, w))
  {
    hide Acknowledge, ValidDevice, FaultsIn, PagesIn;
    AcknowledgeIsQuiet(d, CommandUnit);
    var d1 := if w.cip then Acknowledge(d, CommandUnit) else d;
    AcknowledgeIsQuiet(d1, FaultUnit);
    var d2 := if w.fip then Acknowledge(d1, FaultUnit) else d1;
    AcknowledgeIsQuiet(d2, PageUnit);
    var d3 := if w.pip then Acknowledge(d2, PageUnit) else d2;
    AcknowledgeIsQuiet(d3, HpmUnit);
  }

  lemma VectorIsQuiet(d: Device, vec: nat, masked: bool)
    requires ValidDevice(d) && vec < VECTORS
    ensures Quiet(d, WriteVectorControl(d, vec, masked))
  {
    hide DoMsi, FaultsIn, PagesIn;
    MsiIsQuiet(d, d.regs.msiTable[vec]);
  }

  lemma PageArrivesQuietly(d: Device, rec: PageRecord)
    requires ValidDevice(d)
    ensures var d' := PageArrives(d, rec);
            && (d.regs.fqcsr.Error() ==> d'.regs.fqcsr == d.regs.fqcsr && FaultsIn(d'.mem.stores) == FaultsIn(d.mem.stores))
            && (d.regs.pqcsr.Error() ==> d' == d)
  {
    hide ValidDevice, Pow2, Low, Or, FaultsIn, PagesIn, GenerateInterrupt;
    if d.regs.pqcsr.on && d.regs.pqcsr.en && !d.regs.pqcsr.mf && !d.regs.pqcsr.of {
      PagedIsValid(d, rec);
      FaultsInStored(d, PageStore(d.regs.pq.SlotAddr(d.regs.pq.tail, PQ_ENTRY_SZ), rec));
      InterruptIsQuiet(Paged(d, rec), PageUnit);
    }
  }

  /** Once an overflow or a memory fault is set nothing is appended, until software writes the
      queue's control register. */
  lemma ErrorStopsQueue(d: Device, e: Event)
    requires ValidDevice(d) && Legal(d, e)
    ensures d.regs.fqcsr.Error() && !e.FaultCsr? ==>
              Step(d, e).regs.fqcsr.Error() && FaultsIn(Step(d, e).mem.stores) == FaultsIn(d.mem.stores)
    ensures d.regs.pqcsr.Error() && !e.PageCsr? ==>
              Step(d, e).regs.pqcsr.Error() && PagesIn(Step(d, e).mem.stores) == PagesIn(d.mem.stores)
  {
    hide ReportFault, GenerateInterrupt, PageArrives, WriteIpsr, WriteVectorControl, Low, Pow2, FaultsIn, PagesIn;
    match e {
      case Fault(rec, dtf) => ReportIsQuiet(d, rec, dtf);
      case Page(rec) => PageArrivesQuietly(d, rec);
      case CommandError(_, _, _, _) => InterruptIsQuiet(CommandFails(d, e), CommandUnit);
      case ClearPending(w) => IpsrIsQuiet(d, w);
      case VectorControl(vec, masked) => VectorIsQuiet(d, vec, masked);
      case _ =>
    }
  }

  // ---------------------------------------------------------------- no error goes unsignalled

  /** Software turns a queue's interrupts on over an error that is neither cleared nor pending. */
  predicate EnabledLate(d: Device, e: Event) {
    match e
    case FaultCsr(w) => w.ie && !d.regs.fqcsr.ie && CsrAfter(d.regs.fqcsr, w).Error() && !d.regs.ipsr.fip
    case PageCsr(w) => w.ie && !d.regs.pqcsr.ie && CsrAfter(d.regs.pqcsr, w).Error() && !d.regs.ipsr.pip
    case _ => false
  }

  lemma AcknowledgeAnnounces(d: Device, u: Unit)
    requires ValidDevice(d) && AllAnnounced(d)
    ensures AllAnnounced(Acknowledge(d, u))
  {
    var d1 := d.(regs := d.regs.(ipsr := Clear(d.regs.ipsr, u)));
    assert OthersAnnounced(d1, u);
    InterruptAnnounces(d1, u);
  }

  lemma IpsrAnnounces(d: Device, w: Ipsr)
    requires ValidDevice(d) && AllAnnounced(d)
    ensures AllAnnounced(WriteIpsr(d, w))
  {
    hide Acknowledge, ValidDevice, AllAnnounced;
    AcknowledgeAnnounces(d, CommandUnit);
    var d1 := if w.cip then Acknowledge(d, CommandUnit) else d;
    AcknowledgeAnnounces(d1, FaultUnit);
    var d2 := if w.fip then Acknowledge(d1, FaultUnit) else d1;
    AcknowledgeAnnounces(d2, PageUnit);
    var d3 := if w.pip then Acknowledge(d2, PageUnit) else d2;
    AcknowledgeAnnounces(d3, HpmUnit);
  }

  /** If every error of an interrupt-enabled unit is pending, it is so after a step, acknowledging
      the pending bits included, exactly unless the step enables interrupts late. */
  lemma StepAnnouncesIff(d: Device, e: Event)
    requires ValidDevice(d) && Legal(d, e) && AllAnnounced(d)
    ensures AllAnnounced(Step(d, e)) <==> !EnabledLate(d, e)
  {
    hide ReportFault, GenerateInterrupt, WriteIpsr, DoMsi, Low, Pow2, QueuesApart, PageArrives;
    match e {
      case Fault(rec, dtf) => ReportAnnounces(d, rec, dtf);
      case Page(rec) => PageAnnounces(d, rec);
      case CommandError(_, _, _, _) => InterruptAnnounces(CommandFails(d, e), CommandUnit);
      case ClearPending(w) => IpsrAnnounces(d, w);
      case VectorControl(vec, masked) => MsiAnnounces(d, d.regs.msiTable[vec]);
      case _ =>
    }
  }

  lemma PageAnnounces(d: Device, rec: PageRecord)
    requires ValidDevice(d) && AllAnnounced(d)
    ensures AllAnnounced(PageArrives(d, rec))
  {
    hide GenerateInterrupt, Pow2, Low, Or;
    if d.regs.pqcsr.on && !d.regs.pqcsr.mf && !d.regs.pqcsr.of {
      NextInRing(d.regs.pq, d.regs.pq.tail);
      InterruptAnnounces(Paged(d, rec), PageUnit);
    }
  }

  ghost predicate NeverLate(d: Device, es: seq<Event>)
    requires ValidDevice(d) && LegalRun(d, es)
    decreases |es|
  {
    es == [] || (!EnabledLate(d, es[0]) && NeverLate(Step(d, es[0]), es[1..]))
  }

  /** So over every run in which software never does that, no error of an enabled unit is unsignalled. */
  lemma {:induction false} RunAnnounces(d: Device, es: seq<Event>, f: nat, p: nat)
    requires ValidDevice(d) && LegalRun(d, es) && AllAnnounced(d) && NeverLate(d, es)
    ensures AllAnnounced(Run(d, es, f, p).0)
    decreases |es|
  {
    if es != [] {
      StepAnnouncesIff(d, es[0]);
      RunAnnounces(Step(d, es[0]), es[1..], FaultsRead(d, es[0], f), PagesRead(d, es[0], p));
    }
  }
}
