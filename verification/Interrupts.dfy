/** Fault reporting and interrupt generation. Reporting a fault may raise an interrupt, whose MSI
    write may fail and report a fault in turn. */
module Interrupts {
  import opened Bits
  import opened Common

  const FQ_ENTRY_SZ: nat := 32
  const PQ_ENTRY_SZ: nat := 16
  const VECTORS: nat := 16

  // ---------------------------------------------------------------- registers and memory

  datatype CqCsr = CqCsr(cqen: bool, cie: bool, cqmf: bool, cmd_to: bool, cmd_ill: bool, fence_w_ip: bool, cqon: bool, busy: bool) {
    predicate Error() { cqmf || cmd_to || cmd_ill || fence_w_ip }
  }

  /** `fqcsr` and `pqcsr` have the same fields: enable, interrupt enable, memory fault, overflow, on. */
  datatype QueueCsr = QueueCsr(en: bool, ie: bool, mf: bool, of: bool, on: bool) {
    predicate Error() { mf || of }
  }

  datatype Ring = Ring(ppn: nat, log2szm1: nat, head: nat, tail: nat) {
    function Lg(): nat { log2szm1 + 1 }

    function Entries(): nat { Pow2(Lg()) }

    function Next(i: nat): nat { Low(i + 1, Lg()) }

    predicate Full() { Next(tail) == head }

    function SlotAddr(i: nat, size: nat): nat { Or(ppn * PAGE_SIZE, i * size) }
  }

  datatype Ipsr = Ipsr(cip: bool, fip: bool, pmip: bool, pip: bool)

  datatype MsiEntry = MsiEntry(addr: nat, data: nat, masked: bool)

  datatype Registers = Registers(
    pas: nat, wsi: bool, cqcsr: CqCsr, fqcsr: QueueCsr, fq: Ring, pqcsr: QueueCsr, pq: Ring,
    ipsr: Ipsr, civ: nat, fiv: nat, pmiv: nat, piv: nat, msiTable: seq<MsiEntry>)

  datatype FaultRecord = FaultRecord(cause: nat, iotval: nat, iotval2: nat, ttyp: nat, did: nat, pv: bool, pid: nat, priv: bool)

  datatype PageRecord = PageRecord(did: nat, pv: bool, pid: nat, priv: bool, exec: bool, payload: nat)

  datatype StoreOp =
    | FaultStore(addr: nat, record: FaultRecord)
    | PageStore(addr: nat, page: PageRecord)
    | MsiStore(addr: nat, data: nat)
    | FenceStore(addr: nat, data: nat)

  /** Memory as the IOMMU stores to it, oldest store first, with the platform's injected faults. */
  datatype Memory = Memory(stores: seq<StoreOp>, violations: set<nat>, poisoned: set<nat>)

  function StoreStatus(pas: nat, m: Memory, addr: nat): Status {
    if addr >= Pow2(pas) || addr in m.violations then AccessFault
    else if addr in m.poisoned then DataCorruption
    else Okay
  }

  datatype Device = Device(regs: Registers, msiPending: seq<bool>, mem: Memory)

  predicate ValidDevice(d: Device) {
    && |d.regs.msiTable| == |d.msiPending| == VECTORS
    && d.regs.civ < VECTORS && d.regs.fiv < VECTORS && d.regs.pmiv < VECTORS && d.regs.piv < VECTORS
    && ValidRing(d.regs.fq, d.regs.fqcsr.on) && ValidRing(d.regs.pq, d.regs.pqcsr.on)
    && d.regs.fqcsr.on == d.regs.fqcsr.en && d.regs.pqcsr.on == d.regs.pqcsr.en
  }

  /** A write of the base register while the queue is off resizes it without moving the tail. */
  predicate ValidRing(r: Ring, on: bool) {
    r.log2szm1 < 32 && r.head < r.Entries() && (on ==> r.tail < r.Entries())
  }

  datatype Unit = CommandUnit | FaultUnit | HpmUnit | PageUnit

  // ---------------------------------------------------------------- what the functions do

  /** Faults a device context's DTF does not silence. */
  predicate AlwaysReported(cause: nat) { cause in {256, 257, 258, 259, 268, 272, 273} }

  predicate FaultsAccepted(d: Device, cause: nat, dtf: bool) {
    d.regs.fqcsr.on && d.regs.fqcsr.en && !d.regs.fqcsr.mf && !d.regs.fqcsr.of && (!dtf || AlwaysReported(cause))
  }

  function Stored(d: Device, op: StoreOp): Device { d.(mem := d.mem.(stores := d.mem.stores + [op])) }

  /** The queue part of `report_fault`: overflow, memory fault, or the record and the new tail. */
  function Enqueued(d: Device, rec: FaultRecord): Device {
    var r := d.regs;
    var addr := r.fq.SlotAddr(r.fq.tail, FQ_ENTRY_SZ);
    if r.fq.Full() then d.(regs := r.(fqcsr := r.fqcsr.(of := true)))
    else if !StoreStatus(r.pas, d.mem, addr).Okay? then d.(regs := r.(fqcsr := r.fqcsr.(mf := true)))
    else Stored(d.(regs := r.(fq := r.fq.(tail := r.fq.Next(r.fq.tail)))), FaultStore(addr, rec))
  }

  function ClearBits(i: Ipsr): nat {
    (if i.cip then 0 else 1) + (if i.fip then 0 else 1) + (if i.pmip then 0 else 1) + (if i.pip then 0 else 1)
  }

  /** A record without a process id carries none and no privilege. */
  function Normal(rec: FaultRecord): FaultRecord { if rec.pv then rec else rec.(pid := 0, priv := false) }

  function ReportFault(d: Device, rec: FaultRecord, dtf: bool): (d': Device)
    requires ValidDevice(d)
    ensures ValidDevice(d')
    decreases ClearBits(d.regs.ipsr), 1
  {
    if !FaultsAccepted(d, rec.cause, dtf) then d
    else
      EnqueuedIsValid(d, Normal(rec));
      GenerateInterrupt(Enqueued(d, Normal(rec)), FaultUnit)
  }

  lemma EnqueuedIsValid(d: Device, rec: FaultRecord)
    requires ValidDevice(d) && d.regs.fqcsr.on
    ensures ValidDevice(Enqueued(d, rec)) && Enqueued(d, rec).regs.ipsr == d.regs.ipsr
  {
    NextInRing(d.regs.fq, d.regs.fq.tail);
  }

  predicate Pending(i: Ipsr, u: Unit) {
    match u case CommandUnit => i.cip case FaultUnit => i.fip case HpmUnit => i.pmip case PageUnit => i.pip
  }

  function Raise(i: Ipsr, u: Unit): Ipsr {
    match u
    case CommandUnit => i.(cip := true)
    case FaultUnit => i.(fip := true)
    case HpmUnit => i.(pmip := true)
    case PageUnit => i.(pip := true)
  }

  predicate EnabledFor(r: Registers, u: Unit) {
    match u case CommandUnit => r.cqcsr.cie case FaultUnit => r.fqcsr.ie case HpmUnit => true case PageUnit => r.pqcsr.ie
  }

  function VectorOf(r: Registers, u: Unit): nat {
    match u case CommandUnit => r.civ case FaultUnit => r.fiv case HpmUnit => r.pmiv case PageUnit => r.piv
  }

  function GenerateInterrupt(d: Device, u: Unit): (d': Device)
    requires ValidDevice(d)
    ensures ValidDevice(d')
    decreases ClearBits(d.regs.ipsr), 0
  {
    if Pending(d.regs.ipsr, u) || !EnabledFor(d.regs, u) then d
    else
      var d1 := d.(regs := d.regs.(ipsr := Raise(d.regs.ipsr, u)));
      var vec := VectorOf(d.regs, u);
      if d.regs.wsi then d1
      else if d.regs.msiTable[vec].masked then d1.(msiPending := d.msiPending[vec := true])
      else DoMsi(d1, d.regs.msiTable[vec])
  }

  const NO_TTYP := 0

  function MsiFault(addr: nat): FaultRecord { FaultRecord(273, addr, 0, NO_TTYP, 0, false, 0, false) }

  function DoMsi(d: Device, e: MsiEntry): (d': Device)
    requires ValidDevice(d)
    ensures ValidDevice(d')
    decreases ClearBits(d.regs.ipsr), 2
  {
    match StoreStatus(d.regs.pas, d.mem, e.addr)
    case Okay => Stored(d, MsiStore(e.addr, e.data))
    case DataCorruption => d
    case AccessFault => ReportFault(d, MsiFault(e.addr), false)
  }

  lemma NextInRing(r: Ring, i: nat)
    requires i < r.Entries()
    ensures r.Next(i) == (if i + 1 == r.Entries() then 0 else i + 1) && r.Next(i) < r.Entries()
  {
    LowBound(i + 1, r.Lg());
    ShrZero(i + 1, r.Lg());
    if i + 1 == r.Entries() { LowOfPow2(r.Lg()); }
  }

  lemma {:induction false} LowOfPow2(k: nat)
    ensures Low(Pow2(k), k) == 0
  {
    if k > 0 { LowOfPow2(k - 1); }
  }

  /** `release_pending_interrupt` */
  function ReleasePending(d: Device, vec: nat): (d': Device)
    requires ValidDevice(d) && vec < VECTORS
    ensures ValidDevice(d')
  {
    if d.msiPending[vec] then var d1 := DoMsi(d, d.regs.msiTable[vec]); d1.(msiPending := d1.msiPending[vec := false])
    else d
  }

  // ---------------------------------------------------------------- what register writes do

  /** A write to `fqcsr` or `pqcsr`. */
  datatype CsrWrite = CsrWrite(en: bool, ie: bool, clearMf: bool, clearOf: bool)

  function CsrAfter(c: QueueCsr, w: CsrWrite): QueueCsr {
    var started := w.en && !c.en;
    QueueCsr(w.en, w.ie, c.mf && !started && !w.clearMf, c.of && !started && !w.clearOf,
             if w.en == c.en then c.on else w.en)
  }

  lemma CsrOn(c: QueueCsr, w: CsrWrite)
    requires c.on == c.en
    ensures CsrAfter(c, w).on == CsrAfter(c, w).en == w.en
  {
  }

  function RingAfter(r: Ring, c: QueueCsr, w: CsrWrite): Ring { if w.en && !c.en then r.(tail := 0) else r }

  function WriteFqcsr(d: Device, w: CsrWrite): Device {
    d.(regs := d.regs.(fqcsr := CsrAfter(d.regs.fqcsr, w), fq := RingAfter(d.regs.fq, d.regs.fqcsr, w)))
  }

  function WritePqcsr(d: Device, w: CsrWrite): Device {
    d.(regs := d.regs.(pqcsr := CsrAfter(d.regs.pqcsr, w), pq := RingAfter(d.regs.pq, d.regs.pqcsr, w)))
  }

  /** A write to `fqb` or `pqb` is dropped while the queue is on. */
  function Rebased(r: Ring, on: bool, ppn: nat, log2szm1: nat): Ring {
    if on then r else Ring(ppn, log2szm1, 0, r.tail)
  }

  /** A write to `fqh` or `pqh` */
  function Advanced(r: Ring, index: nat): Ring { r.(head := Low(index, r.Lg())) }

  function Clear(i: Ipsr, u: Unit): Ipsr {
    match u
    case CommandUnit => i.(cip := false)
    case FaultUnit => i.(fip := false)
    case HpmUnit => i.(pmip := false)
    case PageUnit => i.(pip := false)
  }

  predicate ErrorOf(r: Registers, u: Unit) {
    match u case CommandUnit => r.cqcsr.Error() case FaultUnit => r.fqcsr.Error() case HpmUnit => false case PageUnit => r.pqcsr.Error()
  }

  /** Clearing a pending bit signals the unit again if its error is still there. */
  function Acknowledge(d: Device, u: Unit): (d': Device)
    requires ValidDevice(d)
    ensures ValidDevice(d')
  {
    var d1 := d.(regs := d.regs.(ipsr := Clear(d.regs.ipsr, u)));
    if ErrorOf(d1.regs, u) && EnabledFor(d1.regs, u) then GenerateInterrupt(d1, u) else d1
  }

  /** A write to `ipsr` of the bits set in `w` */
  function WriteIpsr(d: Device, w: Ipsr): (d': Device)
    requires ValidDevice(d)
    ensures ValidDevice(d')
  {
    var d1 := if w.cip then Acknowledge(d, CommandUnit) else d;
    var d2 := if w.fip then Acknowledge(d1, FaultUnit) else d1;
    var d3 := if w.pip then Acknowledge(d2, PageUnit) else d2;
    if w.pmip then Acknowledge(d3, HpmUnit) else d3
  }

  /** A write of the mask bit of vector `vec` */
  function WriteVectorControl(d: Device, vec: nat, masked: bool): (d': Device)
    requires ValidDevice(d) && vec < VECTORS
    ensures ValidDevice(d')
  {
    var d1 := if !masked && d.regs.msiTable[vec].masked then ReleasePending(d, vec) else d;
    d1.(regs := d1.regs.(msiTable := d1.regs.msiTable[vec := d1.regs.msiTable[vec].(masked := masked)]))
  }

  // ---------------------------------------------------------------- the code

  class Iommu {
    var regs: Registers
    const msiPending: array<bool>
    var mem: Memory

    constructor (r: Registers, m: Memory)
      ensures regs == r && mem == m && fresh(msiPending) && msiPending.Length == VECTORS
      ensures forall i | 0 <= i < VECTORS :: !msiPending[i]
    {
      regs, mem := r, m;
      msiPending := new bool[VECTORS](_ => false);
    }

    function State(): Device reads this, msiPending { Device(regs, msiPending[..], mem) }

    ghost predicate Valid() reads this, msiPending { ValidDevice(State()) }

    method Write(op: StoreOp) returns (status: Status)
      modifies this`mem
      ensures status == StoreStatus(regs.pas, old(mem), op.addr)
      ensures mem == if status.Okay? then old(mem).(stores := old(mem).stores + [op]) else old(mem)
    {
      if op.addr >= Pow2(regs.pas) || op.addr in mem.violations { return AccessFault; }
      if op.addr in mem.poisoned { return DataCorruption; }
      mem := mem.(stores := mem.stores + [op]);
      status := Okay;
    }

    /** `report_fault` */
    method ReportFaultCode(rec: FaultRecord, dtf: bool)
      requires Valid()
      modifies this, msiPending
      ensures State() == ReportFault(old(State()), rec, dtf)
      decreases ClearBits(regs.ipsr), 1
    {
      if !regs.fqcsr.on || !regs.fqcsr.en { return; }
      if regs.fqcsr.mf { return; }
      if regs.fqcsr.of { return; }
      if dtf && rec.cause != 256 && rec.cause != 257 && rec.cause != 258 && rec.cause != 259 && rec.cause != 268 &&
         rec.cause != 272 && rec.cause != 273 { return; }
      EnqueueCode(if rec.pv then rec else rec.(pid := 0, priv := false));
      GenerateInterruptCode(FaultUnit);
    }

    /** `(t + 1) & ((1UL << (log2szm1 + 1)) - 1)` */
    static method NextIndex(r: Ring) returns (next: nat)
      requires r.tail < r.Entries()
      ensures next == r.Next(r.tail) && next < r.Entries()
    {
      next := And(r.tail + 1, Pow2(r.log2szm1 + 1) - 1);
      AndLowMask(r.tail + 1, r.Lg());
      NextInRing(r, r.tail);
    }

    /** The part of `report_fault` that writes the record, or sets the overflow or memory-fault bit;
        each of its ends then signals the fault queue. */
    method EnqueueCode(frec: FaultRecord)
      requires Valid() && regs.fqcsr.on
      modifies this
      ensures State() == Enqueued(old(State()), frec) && Valid()
    {
      var next := NextIndex(regs.fq);
      hide And, Or, Low, Pow2;
      if next == regs.fq.head {
        regs := regs.(fqcsr := regs.fqcsr.(of := true));
        return;
      }
      var addr := Or(regs.fq.ppn * PAGE_SIZE, regs.fq.tail * FQ_ENTRY_SZ);
      var status := Write(FaultStore(addr, frec));
      if status.AccessFault? || status.DataCorruption? {
        regs := regs.(fqcsr := regs.fqcsr.(mf := true));
      } else {
        regs := regs.(fq := regs.fq.(tail := next));
      }
    }

    /** `generate_interrupt` */
    method GenerateInterruptCode(u: Unit)
      requires Valid()
      modifies this, msiPending
      ensures State() == GenerateInterrupt(old(State()), u)
      decreases ClearBits(regs.ipsr), 0
    {
      var vec;
      match u {
        case FaultUnit =>
          if regs.ipsr.fip || !regs.fqcsr.ie { return; }
          vec, regs := regs.fiv, regs.(ipsr := regs.ipsr.(fip := true));
        case PageUnit =>
          if regs.ipsr.pip || !regs.pqcsr.ie { return; }
          vec, regs := regs.piv, regs.(ipsr := regs.ipsr.(pip := true));
        case CommandUnit =>
          if regs.ipsr.cip || !regs.cqcsr.cie { return; }
          vec, regs := regs.civ, regs.(ipsr := regs.ipsr.(cip := true));
        case HpmUnit =>
          if regs.ipsr.pmip { return; }
          vec, regs := regs.pmiv, regs.(ipsr := regs.ipsr.(pmip := true));
      }
      if !regs.wsi {
        var e := regs.msiTable[vec];
        if e.masked {
          msiPending[vec] := true;
          return;
        }
        DoMsiCode(e);
      }
    }

    /** `do_msi` */
    method DoMsiCode(e: MsiEntry)
      requires Valid()
      modifies this, msiPending
      ensures State() == DoMsi(old(State()), e)
      decreases ClearBits(regs.ipsr), 2
    {
      var status := Write(MsiStore(e.addr, e.data));
      if status.AccessFault? {
        ReportFaultCode(FaultRecord(273, e.addr, 0, NO_TTYP, 0, false, 0, false), false);
      }
    }

    /** `release_pending_interrupt` */
    method ReleasePendingCode(vec: nat)
      requires Valid() && vec < VECTORS
      modifies this, msiPending
      ensures State() == ReleasePending(old(State()), vec)
    {
      if msiPending[vec] {
        DoMsiCode(regs.msiTable[vec]);
        msiPending[vec] := false;
      }
    }

    // The cases of write_register

    /** The two identical cases of `fqcsr` and `pqcsr` */
    static method UpdateCsr(csr: QueueCsr, ring: Ring, w: CsrWrite) returns (c: QueueCsr, r: Ring)
      ensures c == CsrAfter(csr, w) && r == RingAfter(ring, csr, w)
    {
      c, r := csr, ring;
      if c.en != w.en {
        if w.en {
          r := r.(tail := 0);
          c := c.(of := false, mf := false, on := true, en := true);
        } else {
          c := c.(on := false, en := false);
        }
      }
      c := c.(ie := w.ie);
      if w.clearMf { c := c.(mf := false); }
      if w.clearOf { c := c.(of := false); }
    }

    method WriteFqcsrCode(w: CsrWrite)
      requires Valid()
      modifies `regs
      ensures State() == WriteFqcsr(old(State()), w) && Valid()
    {
      hide CsrAfter;
      var c, r := UpdateCsr(regs.fqcsr, regs.fq, w);
      CsrOn(regs.fqcsr, w);
      regs := regs.(fqcsr := c, fq := r);
    }

    method WritePqcsrCode(w: CsrWrite)
      requires Valid()
      modifies `regs
      ensures State() == WritePqcsr(old(State()), w) && Valid()
    {
      hide CsrAfter;
      var c, r := UpdateCsr(regs.pqcsr, regs.pq, w);
      CsrOn(regs.pqcsr, w);
      regs := regs.(pqcsr := c, pq := r);
    }

    /** One bit of a write to `ipsr` */
    method AcknowledgeCode(u: Unit)
      requires Valid()
      modifies this, msiPending
      ensures State() == Acknowledge(old(State()), u) && Valid()
    {
      match u {
        case CommandUnit =>
          regs := regs.(ipsr := regs.ipsr.(cip := false));
          var c := regs.cqcsr;
          if (c.cmd_to || c.cmd_ill || c.cqmf || c.fence_w_ip) && c.cie { GenerateInterruptCode(CommandUnit); }
        case FaultUnit =>
          regs := regs.(ipsr := regs.ipsr.(fip := false));
          if (regs.fqcsr.of || regs.fqcsr.mf) && regs.fqcsr.ie { GenerateInterruptCode(FaultUnit); }
        case PageUnit =>
          regs := regs.(ipsr := regs.ipsr.(pip := false));
          if (regs.pqcsr.of || regs.pqcsr.mf) && regs.pqcsr.ie { GenerateInterruptCode(PageUnit); }
        case HpmUnit => regs := regs.(ipsr := regs.ipsr.(pmip := false));
      }
    }

    method WriteIpsrCode(w: Ipsr)
      requires Valid()
      modifies this, msiPending
      ensures State() == WriteIpsr(old(State()), w) && Valid()
    {
      hide Acknowledge;
      if w.cip { AcknowledgeCode(CommandUnit); }
      if w.fip { AcknowledgeCode(FaultUnit); }
      if w.pip { AcknowledgeCode(PageUnit); }
      if w.pmip { AcknowledgeCode(HpmUnit); }
    }

    method WriteVectorControlCode(vec: nat, masked: bool)
      requires Valid() && vec < VECTORS
      modifies this, msiPending
      ensures State() == WriteVectorControl(old(State()), vec, masked) && Valid()
    {
      if !masked && regs.msiTable[vec].masked { ReleasePendingCode(vec); }
      regs := regs.(msiTable := regs.msiTable[vec := regs.msiTable[vec].(masked := masked)]);
    }
  }
}
