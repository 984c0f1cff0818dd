/** The recursion of faults and interrupts stops after two records, and no announcement of an error is
    lost in it. */
module FaultQueue {
  import opened Bits
  import opened Interrupts

  // ---------------------------------------------------------------- at most two records

  /** The fault records written, oldest first. */
  function FaultsIn(stores: seq<StoreOp>): seq<FaultRecord> {
    if stores == [] then []
    else
      var last := stores[|stores| - 1];
      FaultsIn(stores[..|stores| - 1]) + if last.FaultStore? then [last.record] else []
  }

  lemma FaultsInStored(d: Device, op: StoreOp)
    ensures FaultsIn(Stored(d, op).mem.stores) == FaultsIn(d.mem.stores) + if op.FaultStore? then [op.record] else []
  {
    assert (d.mem.stores + [op])[..|d.mem.stores|] == d.mem.stores;
  }

  /** `d'` has written up to `n` more fault records than `d`. */
  predicate Appends(d: Device, d': Device, n: nat) {
    var (a, b) := (FaultsIn(d.mem.stores), FaultsIn(d'.mem.stores));
    a <= b && |b| <= |a| + n
  }

  lemma EnqueueAppendsOne(d: Device, rec: FaultRecord)
    ensures Appends(d, Enqueued(d, rec), 1)
  {
    FaultsInStored(d, FaultStore(d.regs.fq.SlotAddr(d.regs.fq.tail, FQ_ENTRY_SZ), rec));
  }

  lemma ReportWhilePending(d: Device, rec: FaultRecord, dtf: bool)
    requires ValidDevice(d) && d.regs.ipsr.fip
    ensures Appends(d, ReportFault(d, rec, dtf), 1) && ReportFault(d, rec, dtf).regs.ipsr == d.regs.ipsr
  {
    EnqueueAppendsOne(d, Normal(rec));
  }

  lemma MsiWhilePending(d: Device, e: MsiEntry)
    requires ValidDevice(d) && d.regs.ipsr.fip
    ensures Appends(d, DoMsi(d, e), 1)
  {
    FaultsInStored(d, MsiStore(e.addr, e.data));
    ReportWhilePending(d, MsiFault(e.addr), false);
  }

  lemma FaultInterruptAppendsOne(d: Device)
    requires ValidDevice(d)
    ensures Appends(d, GenerateInterrupt(d, FaultUnit), 1)
  {
    if !d.regs.ipsr.fip && d.regs.fqcsr.ie {
      var d1 := d.(regs := d.regs.(ipsr := Raise(d.regs.ipsr, FaultUnit)));
      MsiWhilePending(d1, d.regs.msiTable[d.regs.fiv]);
    }
  }

  /** One reported fault writes at most two records: itself, and the failed MSI that announces it. */
  lemma ReportAppendsTwo(d: Device, rec: FaultRecord, dtf: bool)
    requires ValidDevice(d)
    ensures Appends(d, ReportFault(d, rec, dtf), 2)
  {
    if FaultsAccepted(d, rec.cause, dtf) {
      EnqueueAppendsOne(d, Normal(rec));
      EnqueuedIsValid(d, Normal(rec));
      FaultInterruptAppendsOne(Enqueued(d, Normal(rec)));
    }
  }

  lemma MsiAppendsTwo(d: Device, e: MsiEntry)
    requires ValidDevice(d)
    ensures Appends(d, DoMsi(d, e), 2)
  {
    FaultsInStored(d, MsiStore(e.addr, e.data));
    ReportAppendsTwo(d, MsiFault(e.addr), false);
  }

  /** So does one interrupt of any unit. */
  lemma InterruptAppendsTwo(d: Device, u: Unit)
    requires ValidDevice(d)
    ensures Appends(d, GenerateInterrupt(d, u), 2)
  {
    if !Pending(d.regs.ipsr, u) && EnabledFor(d.regs, u) {
      var d1 := d.(regs := d.regs.(ipsr := Raise(d.regs.ipsr, u)));
      MsiAppendsTwo(d1, d.regs.msiTable[VectorOf(d.regs, u)]);
    }
  }

  // ---------------------------------------------------------------- error bits and pending bits

  /** An error of an interrupt-enabled unit has its pending bit set. */
  predicate Announced(d: Device, u: Unit) {
    ErrorOf(d.regs, u) && EnabledFor(d.regs, u) ==> Pending(d.regs.ipsr, u)
  }

  predicate AllAnnounced(d: Device) {
    Announced(d, CommandUnit) && Announced(d, FaultUnit) && Announced(d, PageUnit)
  }

  predicate OthersAnnounced(d: Device, u: Unit) {
    (u.CommandUnit? || Announced(d, CommandUnit)) && (u.FaultUnit? || Announced(d, FaultUnit)) && (u.PageUnit? || Announced(d, PageUnit))
  }

  /** Signalling a unit announces its errors and loses no other announcement, nested faults included. */
  lemma InterruptAnnounces(d: Device, u: Unit)
    requires ValidDevice(d) && OthersAnnounced(d, u)
    ensures AllAnnounced(GenerateInterrupt(d, u))
    decreases ClearBits(d.regs.ipsr), 0
  {
    if !Pending(d.regs.ipsr, u) && EnabledFor(d.regs, u) {
      var d1 := d.(regs := d.regs.(ipsr := Raise(d.regs.ipsr, u)));
      MsiAnnounces(d1, d.regs.msiTable[VectorOf(d.regs, u)]);
    }
  }

  lemma MsiAnnounces(d: Device, e: MsiEntry)
    requires ValidDevice(d) && AllAnnounced(d)
    ensures AllAnnounced(DoMsi(d, e))
    decreases ClearBits(d.regs.ipsr), 2
  {
    if StoreStatus(d.regs.pas, d.mem, e.addr).AccessFault? { ReportAnnounces(d, MsiFault(e.addr), false); }
  }

  lemma ReportAnnounces(d: Device, rec: FaultRecord, dtf: bool)
    requires ValidDevice(d) && AllAnnounced(d)
    ensures AllAnnounced(ReportFault(d, rec, dtf))
    decreases ClearBits(d.regs.ipsr), 1
  {
    hide ValidDevice, Pow2, Low;
    if FaultsAccepted(d, rec.cause, dtf) {
      EnqueuedIsValid(d, Normal(rec));
      InterruptAnnounces(Enqueued(d, Normal(rec)), FaultUnit);
    }
  }
}
