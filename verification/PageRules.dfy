/** What becomes of a page request in each state of the device: the fault reported, the answer sent, the record
    stored, and the registers after it; and what software's writes of the queue registers do. */
module PageRules {
  import opened Bits
  import opened Common
  import opened Interrupts
  import opened RingMemory
  import opened DeviceIds
  import opened PageQueue
  import opened QueueRuns
  import opened Messages
  import D = Directories
  import X = DeviceContexts

  // ---------------------------------------------------------------- the answer

  /** The last request of a group that asks to read or write gets `code`, with its process id if `pasid` says so;
      any other gets no answer. */
  predicate Replied(q: PageRequest, code: nat, pasid: bool, reply: Reply) {
    if q.payload / 4 % 2 == 1 && (q.payload % 2 == 1 || q.payload / 2 % 2 == 1)
    then reply == Answered(q.rid, q.dsv, q.dseg, pasid && q.pv, if pasid then q.pid else 0,
                           q.rid * 0x1_0000_0000_0000 + code * 0x1000_0000_0000 + q.payload / 8 % 512 * 0x1_0000_0000)
    else reply == Dropped
  }

  lemma ResponseIs(q: PageRequest, code: ResponseCode, prpr: bool)
    requires q.rid < 65536
    ensures Replied(q, match code case Success => 0 case InvalidRequest => 1 case ResponseFailure => 15,
                    code.ResponseFailure? || prpr, Response(q, code, prpr))
  {
    PayloadFields(q.payload);
    var prgi := GetBits(11, 3, q.payload);
    hide GetBits, Or;
    PackedValue(q.rid, code.Bits(), prgi);
  }

  lemma PayloadFields(p: nat)
    ensures GetBits(0, 0, p) == p % 2 && GetBits(1, 1, p) == p / 2 % 2 && GetBits(2, 2, p) == p / 4 % 2
    ensures GetBits(11, 3, p) == p / 8 % 512 < 512
  {
    SmallPowers();
    assert Pow2(0) == 1 && Pow2(1) == 2;
    assert Pow2(2) == 4 && Pow2(3) == 8;
    LowIsRemainder(p, 0); LowIsRemainder(p, 1); LowIsRemainder(p, 2); LowIsRemainder(p, 3);
    LowIsRemainder(Shr(p, 0), 1); LowIsRemainder(Shr(p, 1), 1); LowIsRemainder(Shr(p, 2), 1); LowIsRemainder(Shr(p, 3), 9);
  }

  // ---------------------------------------------------------------- requests turned away

  /** The state is that after the fault `cause` of the request, and the reply as said. */
  predicate TurnedAway(d: Device, q: PageRequest, id: nat, cause: nat, dtf: bool, code: nat, pasid: bool, d': Device, reply: Reply)
    requires ValidDevice(d)
  {
    && d' == ReportFault(d, FaultRecord(cause, 4, 0, 9, id, q.pv, q.pid, q.priv), dtf)
    && Replied(q, code, pasid, reply)
  }

  /** A request while the IOMMU is off gets response failure; one without a directory, of an id too wide for it, or
      of a device without PRI is invalid; and one whose device is not found gets response failure. */
  lemma RequestIsTurnedAway(d: Device, mode: DirectoryMode, extended: bool, l: D.Located<X.DeviceContext>, q: PageRequest, id: nat)
    requires ValidDevice(d) && !l.GuestPageFault? && q.rid < 65536 && q.dseg < 256
    requires id == (if q.dsv then q.dseg * 65536 + q.rid else q.rid)
    ensures var (d', reply) := HandlePageRequest(d, mode, extended, BitsOf(l), q);
            && (mode.Off? ==> TurnedAway(d, q, id, 256, false, 15, true, d', reply))
            && (mode.DirectBare? ==> TurnedAway(d, q, id, 260, false, 1, false, d', reply))
            && (mode.Levels? && TooWide(mode.n, extended, id) ==> TurnedAway(d, q, id, 260, false, 1, false, d', reply))
            && (mode.Levels? && !TooWide(mode.n, extended, id) ==>
                  && (l.Failed? ==> TurnedAway(d, q, id, l.cause, false, 15, true, d', reply))
                  && (l.Found? && !l.ctx.tc.enPri ==> TurnedAway(d, q, id, 260, l.ctx.tc.dtf, 1, l.ctx.tc.prpr, d', reply)))
  {
    DeviceIdIs(q);
    hide ReportFault, Response, TooWide, Replied, ValidDevice;
    ResponseIs(q, InvalidRequest, false);
    ResponseIs(q, InvalidRequest, true);
    ResponseIs(q, ResponseFailure, false);
  }

  lemma DeviceIdIs(q: PageRequest)
    requires q.rid < 65536
    ensures q.DeviceId() == if q.dsv then q.dseg * 65536 + q.rid else q.rid
  {
    SmallPowers();
    hide Pow2;
    ShrOfMultiple(q.dseg, 16, 0);
    OrIsPlus(q.dseg * 65536, q.rid, 16);
    OrCommutes(q.rid, q.dseg * 65536);
  }

  lemma {:induction false} OrCommutes(x: nat, y: nat)
    ensures Or(x, y) == Or(y, x)
  {
    if x > 0 && y > 0 { OrCommutes(x / 2, y / 2); }
  }

  // ---------------------------------------------------------------- requests admitted

  /** The device is known, and has PRI. */
  predicate Admitting(mode: DirectoryMode, extended: bool, l: D.Located<X.DeviceContext>, q: PageRequest, prpr: bool) {
    mode.Levels? && !TooWide(mode.n, extended, q.DeviceId()) && l.Found? && l.ctx.tc.enPri && l.ctx.tc.prpr == prpr
  }

  /** A queue that is off, or whose memory has failed, answers with response failure; one that has overflowed with
      success. Nothing else happens. */
  lemma QueueIsDown(d: Device, mode: DirectoryMode, extended: bool, l: D.Located<X.DeviceContext>, q: PageRequest, prpr: bool)
    requires ValidDevice(d) && q.rid < 65536 && Admitting(mode, extended, l, q, prpr)
    ensures var ((d', reply), c) := (HandlePageRequest(d, mode, extended, BitsOf(l), q), d.regs.pqcsr);
            && (!c.on || !c.en || c.mf ==> d' == d && Replied(q, 15, true, reply))
            && (c.on && c.en && !c.mf && c.of ==> d' == d && Replied(q, 0, prpr, reply))
  {
    ResponseIs(q, Success, prpr);
    ResponseIs(q, ResponseFailure, prpr);
    hide Response, TooWide, Replied, ValidDevice, Pow2;
  }

  /** The page queue is on and without an error. */
  predicate QueueUp(d: Device) {
    && d.regs.pqcsr.on && d.regs.pqcsr.en && !d.regs.pqcsr.mf && !d.regs.pqcsr.of
    && ValidRing(d.regs.pq, true) && Aligned(d.regs.pq, PQ_LG)
  }

  /** The page unit's interrupt from `d` on: nothing if it is off or pending, else the message of vector `piv`. */
  predicate PageSignal(d: Device, d': Device)
    requires ValidDevice(d)
  {
    if d.regs.pqcsr.ie && !d.regs.ipsr.pip then Signalled(d.(regs := d.regs.(ipsr := d.regs.ipsr.(pip := true))), d.regs.piv, d')
    else d' == d
  }

  /** The device once the queue has overflowed, its memory has failed, or the request is in the slot at the tail,
      without privilege or execute bits unless it has a process id, and the tail is moved on. */
  function Taken(d: Device, q: PageRequest, id: nat): Device {
    var pq := d.regs.pq;
    var addr := pq.ppn * PAGE_SIZE + 16 * pq.tail;
    var next := if pq.tail + 1 == pq.Entries() then 0 else pq.tail + 1;
    if next == pq.head then d.(regs := d.regs.(pqcsr := d.regs.pqcsr.(of := true)))
    else if !StoreStatus(d.regs.pas, d.mem, addr).Okay? then d.(regs := d.regs.(pqcsr := d.regs.pqcsr.(mf := true)))
    else d.(regs := d.regs.(pq := pq.(tail := next)), mem := d.mem.(stores := d.mem.stores +
      [PageStore(addr, PageRecord(id, q.pv, q.pid, q.pv && q.priv, q.pv && q.exec, q.payload))]))
  }

  lemma PagedIsTaken(d: Device, q: PageRequest, id: nat)
    requires ValidDevice(d) && q.rid < 65536 && id == (if q.dsv then q.dseg * 65536 + q.rid else q.rid) && QueueUp(d)
    ensures Paged(d, PageStored(q)) == Taken(d, q, id) && ValidDevice(Taken(d, q, id))
  {
    DeviceIdIs(q);
    EntrySizes();
    NextInRing(d.regs.pq, d.regs.pq.tail);
    SlotAddress(d.regs.pq, PQ_LG, d.regs.pq.tail);
    PagedIsValid(d, PageStored(q));
    hide Low, Or, Pow2, Aligned, ValidDevice;
  }

  lemma TakenAndSignalled(d: Device, q: PageRequest, id: nat)
    requires ValidDevice(d) && q.rid < 65536 && id == (if q.dsv then q.dseg * 65536 + q.rid else q.rid) && QueueUp(d)
    ensures ValidDevice(Taken(d, q, id)) && PageSignal(Taken(d, q, id), PageArrives(d, PageStored(q)))
  {
    PagedIsTaken(d, q, id);
    hide Taken, Paged;
    InterruptSends(Taken(d, q, id));
    hide GenerateInterrupt, Signalled;
  }

  /** In each case the page unit is signalled. The answer is success after an overflow and response failure after a
      memory fault; there is none when the request is queued. */
  lemma RequestMeetsQueue(d: Device, mode: DirectoryMode, extended: bool, l: D.Located<X.DeviceContext>, q: PageRequest, prpr: bool,
                          id: nat)
    requires ValidDevice(d) && q.rid < 65536 && id == (if q.dsv then q.dseg * 65536 + q.rid else q.rid)
    requires Admitting(mode, extended, l, q, prpr) && QueueUp(d)
    ensures var ((d', reply), pq) := (HandlePageRequest(d, mode, extended, BitsOf(l), q), d.regs.pq);
            var full := (if pq.tail + 1 == pq.Entries() then 0 else pq.tail + 1) == pq.head;
            var refused := !StoreStatus(d.regs.pas, d.mem, pq.ppn * PAGE_SIZE + 16 * pq.tail).Okay?;
            && ValidDevice(Taken(d, q, id)) && PageSignal(Taken(d, q, id), d')
            && if full then Replied(q, 0, prpr, reply) else if refused then Replied(q, 15, true, reply) else reply.Queued?
  {
    TakenAndSignalled(d, q, id);
    EntrySizes();
    NextInRing(d.regs.pq, d.regs.pq.tail);
    SlotAddress(d.regs.pq, PQ_LG, d.regs.pq.tail);
    ResponseIs(q, Success, prpr);
    ResponseIs(q, ResponseFailure, prpr);
    hide PageArrives, PageSignal, PageStored, Taken, Response, TooWide, Replied, Low, Or, Pow2, Aligned, ValidDevice, ValidRing;
  }

  // ---------------------------------------------------------------- writes of the registers

  /** Turning a record queue on empties it and forgets its errors. Otherwise just the errors named are cleared. */
  lemma QueueControl(d: Device, w: CsrWrite)
    requires ValidDevice(d)
    ensures var (d', c) := (WriteFqcsr(d, w), d.regs.fqcsr);
            if w.en && !c.en then d' == d.(regs := d.regs.(fqcsr := QueueCsr(true, w.ie, false, false, true), fq := d.regs.fq.(tail := 0)))
            else d' == d.(regs := d.regs.(fqcsr := QueueCsr(w.en, w.ie, c.mf && !w.clearMf, c.of && !w.clearOf, w.en)))
    ensures var (d', c) := (WritePqcsr(d, w), d.regs.pqcsr);
            if w.en && !c.en then d' == d.(regs := d.regs.(pqcsr := QueueCsr(true, w.ie, false, false, true), pq := d.regs.pq.(tail := 0)))
            else d' == d.(regs := d.regs.(pqcsr := QueueCsr(w.en, w.ie, c.mf && !w.clearMf, c.of && !w.clearOf, w.en)))
  {
  }

  /** Software moves a base only while the queue is off, which moves the head to 0, and moves a head round the queue. */
  lemma BaseAndHead(d: Device, ppn: nat, log2szm1: nat, n: nat)
    requires ValidDevice(d) && log2szm1 < 32
    ensures var r := d.regs;
            && Step(d, FaultBase(ppn, log2szm1)) == (if r.fqcsr.on then d else d.(regs := r.(fq := Ring(ppn, log2szm1, 0, r.fq.tail))))
            && Step(d, PageBase(ppn, log2szm1)) == (if r.pqcsr.on then d else d.(regs := r.(pq := Ring(ppn, log2szm1, 0, r.pq.tail))))
            && (Legal(d, ReadFaults(n)) ==>
                  Step(d, ReadFaults(n)) == d.(regs := r.(fq := r.fq.(head := (r.fq.head + n) % r.fq.Entries()))))
            && (Legal(d, ReadPages(n)) ==>
                  Step(d, ReadPages(n)) == d.(regs := r.(pq := r.pq.(head := (r.pq.head + n) % r.pq.Entries()))))
  {
    LowIsRemainder(d.regs.fq.head + n, d.regs.fq.Lg());
    LowIsRemainder(d.regs.pq.head + n, d.regs.pq.Lg());
    hide Low, Pow2, Used;
  }

  /** Writing ones to `ipsr` clears the bits named; where no queue has an error that is all. */
  lemma PendingCleared(d: Device, w: Ipsr)
    requires ValidDevice(d) && !d.regs.fqcsr.mf && !d.regs.fqcsr.of && !d.regs.pqcsr.mf && !d.regs.pqcsr.of
    requires var c := d.regs.cqcsr; !c.cqmf && !c.cmd_to && !c.cmd_ill && !c.fence_w_ip
    ensures var i := d.regs.ipsr;
            WriteIpsr(d, w) == d.(regs := d.regs.(ipsr := Ipsr(i.cip && !w.cip, i.fip && !w.fip, i.pmip && !w.pmip, i.pip && !w.pip)))
  {
    var i := d.regs.ipsr;
    var i1 := if w.cip then Clear(i, CommandUnit) else i;
    var i2 := if w.fip then Clear(i1, FaultUnit) else i1;
    var i3 := if w.pip then Clear(i2, PageUnit) else i2;
    var i4 := if w.pmip then Clear(i3, HpmUnit) else i3;
    assert i4 == Ipsr(i.cip && !w.cip, i.fip && !w.fip, i.pmip && !w.pmip, i.pip && !w.pip);
    ClearedIf(d, i, CommandUnit, w.cip);
    ClearedIf(d, i1, FaultUnit, w.fip);
    ClearedIf(d, i2, PageUnit, w.pip);
    ClearedIf(d, i3, HpmUnit, w.pmip);
    hide Acknowledge, Clear, ErrorOf, ValidDevice;
  }

  lemma ClearedIf(d: Device, i: Ipsr, u: Unit, named: bool)
    requires ValidDevice(d) && !ErrorOf(d.regs, u)
    ensures var d1 := d.(regs := d.regs.(ipsr := i));
            && ValidDevice(d1)
            && (if named then Acknowledge(d1, u) else d1) == d.(regs := d.regs.(ipsr := if named then Clear(i, u) else i))
  {
    hide GenerateInterrupt, Clear;
  }

  /** A queue in error sets its bit again and signals its vector again. */
  lemma ErrorSignalsAgain(d: Device)
    requires ValidDevice(d)
    ensures var (c, d') := (d.regs.cqcsr, WriteIpsr(d, Ipsr(true, false, false, false)));
            c.cie && (c.cqmf || c.cmd_to || c.cmd_ill || c.fence_w_ip) ==>
              Signalled(d.(regs := d.regs.(ipsr := d.regs.ipsr.(cip := true))), d.regs.civ, d')
    ensures var (c, d') := (d.regs.fqcsr, WriteIpsr(d, Ipsr(false, true, false, false)));
            c.ie && (c.mf || c.of) ==> Signalled(d.(regs := d.regs.(ipsr := d.regs.ipsr.(fip := true))), d.regs.fiv, d')
    ensures var (c, d') := (d.regs.pqcsr, WriteIpsr(d, Ipsr(false, false, false, true)));
            c.ie && (c.mf || c.of) ==> Signalled(d.(regs := d.regs.(ipsr := d.regs.ipsr.(pip := true))), d.regs.piv, d')
  {
    SignalsAgain(d, CommandUnit);
    SignalsAgain(d, FaultUnit);
    SignalsAgain(d, PageUnit);
    VectorsExist(d);
    hide Acknowledge, Signalled, ValidDevice;
  }

  lemma SignalsAgain(d: Device, u: Unit)
    requires ValidDevice(d)
    ensures ValidDevice(d.(regs := d.regs.(ipsr := Raise(d.regs.ipsr, u)))) && VectorOf(d.regs, u) < VECTORS
    ensures ErrorOf(d.regs, u) && EnabledFor(d.regs, u) ==>
              Signalled(d.(regs := d.regs.(ipsr := Raise(d.regs.ipsr, u))), VectorOf(d.regs, u), Acknowledge(d, u))
  {
    var d1 := d.(regs := d.regs.(ipsr := Clear(d.regs.ipsr, u)));
    UnitSends(d1, u);
    assert Raise(Clear(d.regs.ipsr, u), u) == Raise(d.regs.ipsr, u) && !Pending(d1.regs.ipsr, u);
    hide GenerateInterrupt, Signalled, Clear, Raise, Pending;
  }
}
