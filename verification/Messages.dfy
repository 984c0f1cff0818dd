/** Which message an interrupt sends, from which register and table entry; that a message held back by a
    masked vector is kept over every run until the vector is unmasked, and is then sent once. */
module Messages {
  import opened Bits
  import opened Common
  import opened Interrupts
  import opened RingMemory
  import opened PageQueue
  import opened QueueRuns

  // ---------------------------------------------------------------- what is sent

  /** From `d` on, entry `vec` of the table is signalled: its message is stored, or noted in the vector's
      pending flag if the vector is masked; a message that cannot be stored is a fault of cause 273. */
  predicate Signalled(d: Device, vec: nat, d': Device)
    requires ValidDevice(d) && vec < VECTORS
  {
    var e := d.regs.msiTable[vec];
    if d.regs.wsi then d' == d
    else if e.masked then d' == d.(msiPending := d.msiPending[vec := true])
    else match StoreStatus(d.regs.pas, d.mem, e.addr)
      case Okay => d' == d.(mem := d.mem.(stores := d.mem.stores + [MsiStore(e.addr, e.data)]))
      case DataCorruption => d' == d
      case AccessFault => d' == ReportFault(d, FaultRecord(273, e.addr, 0, 0, 0, false, 0, false), false)
  }

  /** Each unit signals the vector in its own field of the vector register, and only if it is enabled and
      its pending bit clear. */
  lemma InterruptSends(d: Device)
    requires ValidDevice(d)
    ensures var d' := GenerateInterrupt(d, CommandUnit);
            if d.regs.cqcsr.cie && !d.regs.ipsr.cip then Signalled(d.(regs := d.regs.(ipsr := d.regs.ipsr.(cip := true))), d.regs.civ, d')
            else d' == d
    ensures var d' := GenerateInterrupt(d, FaultUnit);
            if d.regs.fqcsr.ie && !d.regs.ipsr.fip then Signalled(d.(regs := d.regs.(ipsr := d.regs.ipsr.(fip := true))), d.regs.fiv, d')
            else d' == d
    ensures var d' := GenerateInterrupt(d, HpmUnit);
            if !d.regs.ipsr.pmip then Signalled(d.(regs := d.regs.(ipsr := d.regs.ipsr.(pmip := true))), d.regs.pmiv, d')
            else d' == d
    ensures var d' := GenerateInterrupt(d, PageUnit);
            if d.regs.pqcsr.ie && !d.regs.ipsr.pip then Signalled(d.(regs := d.regs.(ipsr := d.regs.ipsr.(pip := true))), d.regs.piv, d')
            else d' == d
  {
    hide GenerateInterrupt, Signalled, ValidDevice;
    UnitSends(d, CommandUnit);
    UnitSends(d, FaultUnit);
    UnitSends(d, HpmUnit);
    UnitSends(d, PageUnit);
    VectorsExist(d);
  }

  lemma VectorsExist(d: Device)
    requires ValidDevice(d)
    ensures d.regs.civ < VECTORS && d.regs.fiv < VECTORS && d.regs.pmiv < VECTORS && d.regs.piv < VECTORS
    ensures forall i: Ipsr :: ValidDevice(d.(regs := d.regs.(ipsr := i)))
  {
  }

  lemma UnitSends(d: Device, u: Unit)
    requires ValidDevice(d)
    ensures ValidDevice(d.(regs := d.regs.(ipsr := Raise(d.regs.ipsr, u)))) && VectorOf(d.regs, u) < VECTORS
    ensures if EnabledFor(d.regs, u) && !Pending(d.regs.ipsr, u)
            then Signalled(d.(regs := d.regs.(ipsr := Raise(d.regs.ipsr, u))), VectorOf(d.regs, u), GenerateInterrupt(d, u))
            else GenerateInterrupt(d, u) == d
  {
    hide ReportFault, StoreStatus, Raise, Pending, EnabledFor;
  }

  /** The causes that are reported whether or not the device context asks for silence. */
  predicate NeverSilenced(cause: nat) {
    || cause == 256 || cause == 257 || cause == 258 || cause == 259 || cause == 268 || cause == 272 || cause == 273
  }

  /** The fault queue is on, without an error, and has room for a record at `addr`. */
  predicate TakesFault(d: Device, addr: nat) {
    && d.regs.fqcsr.on && d.regs.fqcsr.en && !d.regs.fqcsr.mf && !d.regs.fqcsr.of
    && ValidRing(d.regs.fq, true) && Aligned(d.regs.fq, FQ_LG)
    && (if d.regs.fq.tail + 1 == d.regs.fq.Entries() then 0 else d.regs.fq.tail + 1) != d.regs.fq.head
    && addr == d.regs.fq.ppn * PAGE_SIZE + 32 * d.regs.fq.tail && StoreStatus(d.regs.pas, d.mem, addr).Okay?
  }

  /** A fault that is not silenced puts its record in the slot at the tail, moves the tail on, and sends the
      message of vector `fiv`. A record without a process id carries neither one nor a privilege. */
  lemma FaultIsRecorded(d: Device, rec: FaultRecord, dtf: bool, addr: nat)
    requires ValidDevice(d) && TakesFault(d, addr) && d.regs.fqcsr.ie && !d.regs.ipsr.fip && (dtf ==> NeverSilenced(rec.cause))
    ensures var (d', e, tail) := (ReportFault(d, rec, dtf), d.regs.msiTable[d.regs.fiv], d.regs.fq.tail);
            var stored := FaultStore(addr, FaultRecord(rec.cause, rec.iotval, rec.iotval2, rec.ttyp, rec.did, rec.pv,
                                                       if rec.pv then rec.pid else 0, rec.pv && rec.priv));
            && (!d.regs.wsi && !e.masked && StoreStatus(d.regs.pas, d.mem, e.addr).Okay? ==>
                  d'.mem.stores == d.mem.stores + [stored, MsiStore(e.addr, e.data)])
            && (d.regs.wsi || e.masked ==> d'.mem.stores == d.mem.stores + [stored])
            && (d.regs.wsi || e.masked || StoreStatus(d.regs.pas, d.mem, e.addr).Okay? ==>
                  && d'.regs.fq.tail == (if tail + 1 == d.regs.fq.Entries() then 0 else tail + 1) && d'.regs.ipsr.fip
                  && d'.msiPending == if !d.regs.wsi && e.masked then d.msiPending[d.regs.fiv := true] else d.msiPending)
  {
    hide GenerateInterrupt;
    EnqueuedIsValid(d, Normal(rec));
    RecordEnqueued(d, Normal(rec), addr);
    InterruptSends(Enqueued(d, Normal(rec)));
    hide Enqueued, Aligned;
  }

  lemma RecordEnqueued(d: Device, rec: FaultRecord, addr: nat)
    requires ValidDevice(d) && TakesFault(d, addr)
    ensures var tail := if d.regs.fq.tail + 1 == d.regs.fq.Entries() then 0 else d.regs.fq.tail + 1;
            Enqueued(d, rec) == d.(regs := d.regs.(fq := d.regs.fq.(tail := tail)),
                                   mem := d.mem.(stores := d.mem.stores + [FaultStore(addr, rec)]))
  {
    EntrySizes();
    NextInRing(d.regs.fq, d.regs.fq.tail);
    SlotAddress(d.regs.fq, FQ_LG, d.regs.fq.tail);
    hide Low, Or, Pow2, Aligned;
  }

  /** A fault that is silenced, or that the queue is not in a state to take, leaves everything alone. */
  lemma FaultIsDropped(d: Device, rec: FaultRecord, dtf: bool)
    requires ValidDevice(d)
    requires (dtf && !NeverSilenced(rec.cause)) || !d.regs.fqcsr.on || !d.regs.fqcsr.en || d.regs.fqcsr.mf || d.regs.fqcsr.of
    ensures ReportFault(d, rec, dtf) == d
  {
  }

  /** A full queue overflows, and one whose slot cannot be stored to has a memory fault; nothing is recorded. */
  lemma FaultIsLost(d: Device, rec: FaultRecord, dtf: bool)
    requires ValidDevice(d) && d.regs.fqcsr.on && d.regs.fqcsr.en && !d.regs.fqcsr.mf && !d.regs.fqcsr.of
    requires (dtf ==> NeverSilenced(rec.cause)) && !d.regs.fqcsr.ie && Aligned(d.regs.fq, FQ_LG)
    ensures var (d', r) := (ReportFault(d, rec, dtf), d.regs.fq);
            var full := (if r.tail + 1 == r.Entries() then 0 else r.tail + 1) == r.head;
            var refused := !StoreStatus(d.regs.pas, d.mem, r.ppn * PAGE_SIZE + 32 * r.tail).Okay?;
            && (d'.regs.fqcsr.of <==> full) && (d'.regs.fqcsr.mf <==> !full && refused)
            && (full || refused ==> d'.mem == d.mem && d'.regs.fq == r)
  {
    EnqueuedIsValid(d, Normal(rec));
    EnqueuedOrLost(d, Normal(rec));
    hide Low, Or, Pow2, Aligned, GenerateInterrupt, Signalled, ValidRing, Enqueued;
    UnitSends(Enqueued(d, Normal(rec)), FaultUnit);
  }

  lemma EnqueuedOrLost(d: Device, rec: FaultRecord)
    requires ValidDevice(d) && d.regs.fqcsr.on && !d.regs.fqcsr.mf && !d.regs.fqcsr.of && Aligned(d.regs.fq, FQ_LG)
    ensures var (d', r) := (Enqueued(d, rec), d.regs.fq);
            var full := (if r.tail + 1 == r.Entries() then 0 else r.tail + 1) == r.head;
            var refused := !StoreStatus(d.regs.pas, d.mem, r.ppn * PAGE_SIZE + 32 * r.tail).Okay?;
            && d'.regs.fqcsr.ie == d.regs.fqcsr.ie && (d'.regs.fqcsr.of <==> full) && (d'.regs.fqcsr.mf <==> !full && refused)
            && (full || refused ==> d'.mem == d.mem && d'.regs.fq == r)
  {
    EntrySizes();
    NextInRing(d.regs.fq, d.regs.fq.tail);
    SlotAddress(d.regs.fq, FQ_LG, d.regs.fq.tail);
    hide Low, Or, Pow2, Aligned;
  }

  // ---------------------------------------------------------------- a message held back is kept

  /** Pending flags stay set, and the table stays as it is. */
  predicate FlagsKept(d: Device, d': Device)
    requires ValidDevice(d) && ValidDevice(d')
  {
    d'.regs.msiTable == d.regs.msiTable && forall v | 0 <= v < VECTORS && d.msiPending[v] :: d'.msiPending[v]
  }

  lemma InterruptKeepsFlags(d: Device, u: Unit)
    requires ValidDevice(d)
    ensures FlagsKept(d, GenerateInterrupt(d, u))
    decreases ClearBits(d.regs.ipsr), 0
  {
    if !Pending(d.regs.ipsr, u) && EnabledFor(d.regs, u) {
      var d1 := d.(regs := d.regs.(ipsr := Raise(d.regs.ipsr, u)));
      MsiKeepsFlags(d1, d.regs.msiTable[VectorOf(d.regs, u)]);
    }
  }

  lemma MsiKeepsFlags(d: Device, e: MsiEntry)
    requires ValidDevice(d)
    ensures FlagsKept(d, DoMsi(d, e))
    decreases ClearBits(d.regs.ipsr), 2
  {
    if StoreStatus(d.regs.pas, d.mem, e.addr).AccessFault? { ReportKeepsFlags(d, MsiFault(e.addr), false); }
  }

  lemma ReportKeepsFlags(d: Device, rec: FaultRecord, dtf: bool)
    requires ValidDevice(d)
    ensures FlagsKept(d, ReportFault(d, rec, dtf))
    decreases ClearBits(d.regs.ipsr), 1
  {
    hide Pow2, Low, ValidRing, GenerateInterrupt;
    if FaultsAccepted(d, rec.cause, dtf) {
      EnqueuedIsValid(d, Normal(rec));
      InterruptKeepsFlags(Enqueued(d, Normal(rec)), FaultUnit);
      EnqueuedKeepsTable(d, Normal(rec));
      hide Enqueued;
    }
  }

  lemma EnqueuedKeepsTable(d: Device, rec: FaultRecord)
    ensures Enqueued(d, rec).regs.msiTable == d.regs.msiTable && Enqueued(d, rec).msiPending == d.msiPending
  {
    hide Pow2, Low;
  }

  lemma AcknowledgeKeepsFlags(d: Device, u: Unit)
    requires ValidDevice(d)
    ensures FlagsKept(d, Acknowledge(d, u))
  {
    InterruptKeepsFlags(d.(regs := d.regs.(ipsr := Clear(d.regs.ipsr, u))), u);
  }

  lemma IpsrKeepsFlags(d: Device, w: Ipsr)
    requires ValidDevice(d)
    ensures FlagsKept(d, WriteIpsr(d, w))
  {
    hide Acknowledge;
    AcknowledgeKeepsFlags(d, CommandUnit);
    var d1 := if w.cip then Acknowledge(d, CommandUnit) else d;
    AcknowledgeKeepsFlags(d1, FaultUnit);
    var d2 := if w.fip then Acknowledge(d1, FaultUnit) else d1;
    AcknowledgeKeepsFlags(d2, PageUnit);
    var d3 := if w.pip then Acknowledge(d2, PageUnit) else d2;
    AcknowledgeKeepsFlags(d3, HpmUnit);
  }

  /** The vector's message is held back: masked, with the flag set; `addr` and `data` are the message. */
  predicate HeldBack(d: Device, vec: nat, addr: nat, data: nat)
    requires ValidDevice(d)
  {
    vec < VECTORS && d.msiPending[vec] && d.regs.msiTable[vec] == MsiEntry(addr, data, true)
  }

  /** Only unmasking the vector releases its message. */
  lemma StepHolds(d: Device, e: Event, vec: nat, addr: nat, data: nat)
    requires ValidDevice(d) && Legal(d, e) && HeldBack(d, vec, addr, data) && e != VectorControl(vec, false)
    ensures HeldBack(Step(d, e), vec, addr, data)
  {
    hide ReportFault, GenerateInterrupt, WriteIpsr, Low, Pow2, DoMsi;
    match e {
      case Fault(rec, dtf) => ReportKeepsFlags(d, rec, dtf);
      case Page(rec) =>
        if d.regs.pqcsr.on && d.regs.pqcsr.en && !d.regs.pqcsr.mf && !d.regs.pqcsr.of {
          PagedIsValid(d, rec);
          InterruptKeepsFlags(Paged(d, rec), PageUnit);
        }
      case CommandError(_, _, _, _) => InterruptKeepsFlags(CommandFails(d, e), CommandUnit);
      case ClearPending(w) => IpsrKeepsFlags(d, w);
      case VectorControl(v, masked) => if d.msiPending[v] { MsiKeepsFlags(d, d.regs.msiTable[v]); }
      case _ =>
    }
  }

  ghost function After(d: Device, es: seq<Event>): (d': Device)
    requires ValidDevice(d) && LegalRun(d, es)
    ensures ValidDevice(d')
    decreases |es|
  {
    if es == [] then d else After(Step(d, es[0]), es[1..])
  }

  /** Over every run that does not unmask the vector its message stays held back. */
  lemma {:induction false} RunHolds(d: Device, es: seq<Event>, vec: nat, addr: nat, data: nat)
    requires ValidDevice(d) && LegalRun(d, es) && HeldBack(d, vec, addr, data) && VectorControl(vec, false) !in es
    ensures HeldBack(After(d, es), vec, addr, data)
    decreases |es|
  {
    hide Legal, Step, HeldBack;
    if es != [] {
      StepHolds(d, es[0], vec, addr, data);
      RunHolds(Step(d, es[0]), es[1..], vec, addr, data);
    }
  }

  /** Unmasking a vector sends the message held back, just that, and clears its flag; as long as no other
      interrupt sets the flag again, no later write of the mask sends anything. */
  lemma UnmaskSendsOnce(d: Device, vec: nat, addr: nat, data: nat)
    requires ValidDevice(d) && HeldBack(d, vec, addr, data) && StoreStatus(d.regs.pas, d.mem, addr).Okay?
    ensures var d' := Step(d, VectorControl(vec, false));
            && d'.mem.stores == d.mem.stores + [MsiStore(addr, data)]
            && d'.msiPending == d.msiPending[vec := false]
            && d'.regs == d.regs.(msiTable := d.regs.msiTable[vec := MsiEntry(addr, data, false)])
  {
    hide ReportFault, StoreStatus;
  }

  lemma NothingHeldSendsNothing(d: Device, vec: nat, masked: bool)
    requires ValidDevice(d) && vec < VECTORS && !d.msiPending[vec]
    ensures Step(d, VectorControl(vec, masked)).mem == d.mem && Step(d, VectorControl(vec, masked)).msiPending == d.msiPending
  {
  }

  /** So: a message raised while its vector is masked is stored, after any run that leaves the vector masked, by
      the unmasking, if the store then succeeds. */
  lemma MaskedComesLater(d: Device, vec: nat, d1: Device, es: seq<Event>)
    requires ValidDevice(d) && vec < VECTORS && !d.regs.wsi && d.regs.msiTable[vec].masked && Signalled(d, vec, d1)
    requires ValidDevice(d1) && LegalRun(d1, es) && VectorControl(vec, false) !in es
    ensures var (e, u) := (d.regs.msiTable[vec], After(d1, es));
            StoreStatus(u.regs.pas, u.mem, e.addr).Okay? ==>
              Step(u, VectorControl(vec, false)).mem.stores == u.mem.stores + [MsiStore(e.addr, e.data)]
  {
    var e := d.regs.msiTable[vec];
    hide StoreStatus, Step, LegalRun;
    RunHolds(d1, es, vec, e.addr, e.data);
    var u := After(d1, es);
    if StoreStatus(u.regs.pas, u.mem, e.addr).Okay? { UnmaskSendsOnce(u, vec, e.addr, e.data); }
  }
}
