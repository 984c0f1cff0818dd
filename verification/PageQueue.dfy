/** Page requests: each message is put in the page queue, answered by the IOMMU, or dropped. */
module PageQueue {
  import opened Bits
  import opened Common
  import opened Interrupts
  import opened DeviceIds
  import opened DirectoryCaches
  import P = PageTables
  import D = Directories
  import X = DeviceContexts
  import B = DirectoryBuilder

  // ---------------------------------------------------------------- what the functions do

  /** The outcome of `locate_device_context`: a fault cause, or the bits of the context used here. */
  datatype DeviceBits = Unlocated(cause: nat) | Known(enPri: bool, prpr: bool, dtf: bool)

  function BitsOf(l: D.Located<X.DeviceContext>): DeviceBits
    requires !l.GuestPageFault?
  {
    if l.Failed? then Unlocated(l.cause) else Known(l.ctx.tc.enPri, l.ctx.tc.prpr, l.ctx.tc.dtf)
  }

  datatype PageRequest = PageRequest(dsv: bool, dseg: nat, rid: nat, pv: bool, pid: nat, priv: bool, exec: bool, payload: nat) {
    function DeviceId(): nat { if dsv then Or(rid, dseg * 65536) else rid }

    /** The last request of its group, and not a stop marker. */
    predicate NeedsResponse() { GetBits(2, 2, payload) == 1 && (GetBits(0, 0, payload) != 0 || GetBits(1, 1, payload) != 0) }
  }

  datatype ResponseCode = Success | InvalidRequest | ResponseFailure {
    function Bits(): nat { match this case Success => 0 case InvalidRequest => 1 case ResponseFailure => 15 }
  }

  datatype Reply =
    | Queued
    | Dropped
    | Answered(rid: nat, dsv: bool, dseg: nat, pv: bool, pid: nat, payload: nat)

  const BIT_32: nat := 0x1_0000_0000
  const BIT_44: nat := 0x1000_0000_0000
  const BIT_48: nat := 0x1_0000_0000_0000

  const PAGE_REQ_MSG_CODE := 4
  const PCIE_MESSAGE_REQUEST := 9

  function RequestFault(cause: nat, q: PageRequest): FaultRecord {
    FaultRecord(cause, PAGE_REQ_MSG_CODE, 0, PCIE_MESSAGE_REQUEST, q.DeviceId(), q.pv, q.pid, q.priv)
  }

  /** Whether the request is turned away before the page queue is looked at. */
  datatype Admission = Admitted(prpr: bool) | Refused(cause: nat, dtf: bool, code: ResponseCode, prpr: bool)

  function Admit(mode: DirectoryMode, extended: bool, loc: DeviceBits, q: PageRequest): Admission {
    if mode.Off? then Refused(256, false, ResponseFailure, false)
    else if mode.DirectBare? || TooWide(mode.n, extended, q.DeviceId()) then Refused(260, false, InvalidRequest, false)
    else match loc
         case Unlocated(cause) => Refused(cause, false, ResponseFailure, false)
         case Known(enPri, prpr, dtf) => if !enPri then Refused(260, dtf, InvalidRequest, prpr) else Admitted(prpr)
  }

  function PageStored(q: PageRequest): PageRecord {
    PageRecord(q.DeviceId(), q.pv, q.pid, q.pv && q.priv, q.pv && q.exec, q.payload)
  }

  /** The queue part: no room, no access, or the record and the new tail. */
  function Paged(d: Device, rec: PageRecord): Device {
    var r := d.regs;
    var addr := r.pq.SlotAddr(r.pq.tail, PQ_ENTRY_SZ);
    if r.pq.Full() then d.(regs := r.(pqcsr := r.pqcsr.(of := true)))
    else if !StoreStatus(r.pas, d.mem, addr).Okay? then d.(regs := r.(pqcsr := r.pqcsr.(mf := true)))
    else Stored(d.(regs := r.(pq := r.pq.(tail := r.pq.Next(r.pq.tail)))), PageStore(addr, rec))
  }

  /** Why the queue cannot take a record, if it cannot. */
  function QueueError(d: Device): Option<ResponseCode> {
    var r := d.regs;
    if !r.pqcsr.on || !r.pqcsr.en || r.pqcsr.mf then Some(ResponseFailure)
    else if r.pqcsr.of || r.pq.Full() then Some(Success)
    else if !StoreStatus(r.pas, d.mem, r.pq.SlotAddr(r.pq.tail, PQ_ENTRY_SZ)).Okay? then Some(ResponseFailure)
    else None
  }

  /** The device after an admitted request. */
  function PageArrives(d: Device, rec: PageRecord): (d': Device)
    requires ValidDevice(d)
    ensures ValidDevice(d')
  {
    if !d.regs.pqcsr.on || !d.regs.pqcsr.en || d.regs.pqcsr.mf || d.regs.pqcsr.of then d
    else
      PagedIsValid(d, rec);
      GenerateInterrupt(Paged(d, rec), PageUnit)
  }

  lemma PagedIsValid(d: Device, rec: PageRecord)
    requires ValidDevice(d) && d.regs.pqcsr.on
    ensures ValidDevice(Paged(d, rec)) && Paged(d, rec).regs.ipsr == d.regs.ipsr
  {
    NextInRing(d.regs.pq, d.regs.pq.tail);
  }

  function Response(q: PageRequest, code: ResponseCode, prpr: bool): Reply {
    if !q.NeedsResponse() then Dropped
    else
      var pasid := code.ResponseFailure? || prpr;
      Answered(q.rid, q.dsv, q.dseg, pasid && q.pv, if pasid then q.pid else 0,
               Or(Or(q.rid * BIT_48, code.Bits() * BIT_44), GetBits(11, 3, q.payload) * BIT_32))
  }

  function HandlePageRequest(d: Device, mode: DirectoryMode, extended: bool, loc: DeviceBits, q: PageRequest): (Device, Reply)
    requires ValidDevice(d)
  {
    match Admit(mode, extended, loc, q)
    case Refused(cause, dtf, code, prpr) => (ReportFault(d, RequestFault(cause, q), dtf), Response(q, code, prpr))
    case Admitted(prpr) =>
      (PageArrives(d, PageStored(q)), match QueueError(d) case None => Queued case Some(code) => Response(q, code, prpr))
  }

  // ---------------------------------------------------------------- the code

  /** The request gets as far as `locate_device_context`. */
  predicate LooksUp(mode: DirectoryMode, extended: bool, q: PageRequest) {
    mode.Levels? && !TooWide(mode.n, extended, q.DeviceId())
  }

  /** `handle_page_request` */
  method HandlePageRequestCode(io: Iommu, mode: DirectoryMode, c: X.Config, t: D.Tree, cache: Cache<nat, X.DeviceContext>,
                               mem: P.Memory, slot0: nat, q: PageRequest)
    returns (reply: Reply, slot: nat)
    requires io.Valid() && D.ValidTree(t) && (mode.Levels? ==> t.levels == mode.n) && cache.Valid()
    requires NoneOlder(cache.entries[..]) ==> slot0 < CACHE_SIZE
    modifies io, io.msiPending, cache`lruTime, cache.entries
    ensures cache.Valid()
    ensures (DeviceIsNoGuest(c, t, old(cache.entries[..]), q.DeviceId(), mem.store);
            var loc := BitsOf(DeviceBy(c, t, old(cache.entries[..]), q.DeviceId(), mem.store));
            (io.State(), reply) == HandlePageRequest(old(io.State()), mode, c.caps.msiFlat, loc, q))
    ensures cache.entries[..] ==
              if LooksUp(mode, c.caps.msiFlat, q) then
                DevicesAfter(c, t, old(cache.entries[..]), q.DeviceId(), mem.store, old(cache.lruTime), slot)
              else old(cache.entries[..])
  {
    hide ReportFault, PageArrives, QueueError, Response, RequestFault, PageStored, DeviceBy, DevicesAfter, ValidDevice, Ddi;
    var prpr, id, extended := false, q.DeviceId(), c.caps.msiFlat;
    slot := slot0;
    DeviceIsNoGuest(c, t, cache.entries[..], id, mem.store);
    if mode.Off? {
      io.ReportFaultCode(RequestFault(256, q), false);
      reply := SendResponse(q, ResponseFailure, prpr);
      return;
    }
    if mode.DirectBare? {
      io.ReportFaultCode(RequestFault(260, q), false);
      reply := SendResponse(q, InvalidRequest, prpr);
      return;
    }
    var ddi1, ddi2 := Ddi(1, extended, id), Ddi(2, extended, id);
    if (mode.n == 2 && ddi2 != 0) || (mode.n == 1 && (ddi2 != 0 || ddi1 != 0)) {
      io.ReportFaultCode(RequestFault(260, q), false);
      reply := SendResponse(q, InvalidRequest, prpr);
      return;
    }
    var dc;
    dc, slot := LocateDeviceContext(c, t, id, cache, mem, slot0);
    if dc.Failed? {
      io.ReportFaultCode(RequestFault(dc.cause, q), false);
      reply := SendResponse(q, ResponseFailure, prpr);
      return;
    }
    prpr := dc.ctx.tc.prpr;
    if !dc.ctx.tc.enPri {
      io.ReportFaultCode(RequestFault(260, q), dc.ctx.tc.dtf);
      reply := SendResponse(q, InvalidRequest, prpr);
      return;
    }
    var error := PageArrivesCode(io, PageStored(q));
    if error.None? { reply := Queued; return; }
    reply := SendResponse(q, error.value, prpr);
  }

  lemma DeviceIsNoGuest(c: X.Config, t: D.Tree, dcs: seq<Entry<nat, X.DeviceContext>>, id: nat, m: P.Store)
    requires D.ValidTree(t)
    ensures !DeviceBy(c, t, dcs, id, m).GuestPageFault?
  {
    D.DeviceCauses(c, t, id, t.levels - 1, t.root * PAGE_SIZE, m);
  }

  /** The part of `handle_page_request` that writes the record; the code it ends with otherwise. */
  method PageArrivesCode(io: Iommu, rec: PageRecord) returns (error: Option<ResponseCode>)
    requires io.Valid()
    modifies io, io.msiPending
    ensures io.State() == PageArrives(old(io.State()), rec)
    ensures error == QueueError(old(io.State()))
  {
    if !io.regs.pqcsr.on || !io.regs.pqcsr.en { return Some(ResponseFailure); }
    if io.regs.pqcsr.mf { return Some(ResponseFailure); }
    if io.regs.pqcsr.of { return Some(Success); }
    error := WritePage(io, rec);
    io.GenerateInterruptCode(PageUnit);
  }

  method WritePage(io: Iommu, rec: PageRecord) returns (error: Option<ResponseCode>)
    requires io.Valid() && io.regs.pqcsr == QueueCsr(true, io.regs.pqcsr.ie, false, false, true)
    modifies io
    ensures io.State() == Paged(old(io.State()), rec) && io.Valid()
    ensures error == QueueError(old(io.State()))
  {
    var next := Iommu.NextIndex(io.regs.pq);
    hide And, Or, Low, Pow2;
    if next == io.regs.pq.head {
      io.regs := io.regs.(pqcsr := io.regs.pqcsr.(of := true));
      return Some(Success);
    }
    var status := io.Write(PageStore(Or(io.regs.pq.ppn * PAGE_SIZE, io.regs.pq.tail * PQ_ENTRY_SZ), rec));
    if status.AccessFault? || status.DataCorruption? {
      io.regs := io.regs.(pqcsr := io.regs.pqcsr.(mf := true));
      return Some(ResponseFailure);
    }
    io.regs := io.regs.(pq := io.regs.pq.(tail := next));
    error := None;
  }

  /** `send_prgr` */
  method SendResponse(q: PageRequest, code: ResponseCode, prpr: bool) returns (reply: Reply)
    ensures reply == Response(q, code, prpr)
  {
    var r, w, l, prgi := GetBits(0, 0, q.payload), GetBits(1, 1, q.payload), GetBits(2, 2, q.payload), GetBits(11, 3, q.payload);
    FieldBound(2, 2, q.payload);
    hide GetBits, Or, Pow2;
    if l == 0 || (l == 1 && r == 0 && w == 0) { return Dropped; }
    var pv, pid := q.pv, q.pid;
    if code.InvalidRequest? || code.Success? {
      if !prpr { pv, pid := false, 0; }
    }
    reply := Answered(q.rid, q.dsv, q.dseg, pv, pid, Or(Or(q.rid * BIT_48, code.Bits() * BIT_44), prgi * BIT_32));
  }

  // ---------------------------------------------------------------- one of three

  /** The page requests written, oldest first. */
  function PagesIn(stores: seq<StoreOp>): seq<PageRecord> {
    if stores == [] then []
    else
      var last := stores[|stores| - 1];
      PagesIn(stores[..|stores| - 1]) + if last.PageStore? then [last.page] else []
  }

  lemma PagesInStored(d: Device, op: StoreOp)
    ensures PagesIn(Stored(d, op).mem.stores) == PagesIn(d.mem.stores) + if op.PageStore? then [op.page] else []
  {
    assert (d.mem.stores + [op])[..|d.mem.stores|] == d.mem.stores;
  }

  lemma InterruptWritesNoPage(d: Device, u: Unit)
    requires ValidDevice(d)
    ensures PagesIn(GenerateInterrupt(d, u).mem.stores) == PagesIn(d.mem.stores)
    decreases ClearBits(d.regs.ipsr), 0
  {
    if !Pending(d.regs.ipsr, u) && EnabledFor(d.regs, u) {
      var d1 := d.(regs := d.regs.(ipsr := Raise(d.regs.ipsr, u)));
      MsiWritesNoPage(d1, d.regs.msiTable[VectorOf(d.regs, u)]);
    }
  }

  lemma MsiWritesNoPage(d: Device, e: MsiEntry)
    requires ValidDevice(d)
    ensures PagesIn(DoMsi(d, e).mem.stores) == PagesIn(d.mem.stores)
    decreases ClearBits(d.regs.ipsr), 2
  {
    PagesInStored(d, MsiStore(e.addr, e.data));
    if StoreStatus(d.regs.pas, d.mem, e.addr).AccessFault? { ReportWritesNoPage(d, MsiFault(e.addr), false); }
  }

  lemma ReportWritesNoPage(d: Device, rec: FaultRecord, dtf: bool)
    requires ValidDevice(d)
    ensures PagesIn(ReportFault(d, rec, dtf).mem.stores) == PagesIn(d.mem.stores)
    decreases ClearBits(d.regs.ipsr), 1
  {
    hide ValidDevice, Pow2, Low, PagesIn;
    if FaultsAccepted(d, rec.cause, dtf) {
      EnqueuedIsValid(d, Normal(rec));
      PagesInStored(d, FaultStore(d.regs.fq.SlotAddr(d.regs.fq.tail, FQ_ENTRY_SZ), Normal(rec)));
      InterruptWritesNoPage(Enqueued(d, Normal(rec)), FaultUnit);
    }
  }

  /** A request is written to the queue exactly when the reply says so; otherwise it is answered if
      it needs a response and dropped if it does not. No request meets two of these ends. */
  lemma OneOfThree(d: Device, mode: DirectoryMode, extended: bool, loc: DeviceBits, q: PageRequest)
    requires ValidDevice(d)
    ensures var (d', reply) := HandlePageRequest(d, mode, extended, loc, q);
            && PagesIn(d'.mem.stores) == PagesIn(d.mem.stores) + (if reply.Queued? then [PageStored(q)] else [])
            && (!reply.Queued? ==> (reply.Answered? <==> q.NeedsResponse()))
  {
    match Admit(mode, extended, loc, q)
    case Refused(cause, dtf, _, _) => ReportWritesNoPage(d, RequestFault(cause, q), dtf);
    case Admitted(_) => PageArrivesAppends(d, PageStored(q));
  }

  lemma PageArrivesAppends(d: Device, rec: PageRecord)
    requires ValidDevice(d)
    ensures PagesIn(PageArrives(d, rec).mem.stores) == PagesIn(d.mem.stores) + if QueueError(d).None? then [rec] else []
  {
    if d.regs.pqcsr.on && d.regs.pqcsr.en && !d.regs.pqcsr.mf && !d.regs.pqcsr.of {
      NextInRing(d.regs.pq, d.regs.pq.tail);
      PagesInStored(d, PageStore(d.regs.pq.SlotAddr(d.regs.pq.tail, PQ_ENTRY_SZ), rec));
      InterruptWritesNoPage(Paged(d, rec), PageUnit);
    }
  }

  /** What a device reads out of the answer: its own id, the code, and the index of its request group. */
  lemma AnswerDecodes(q: PageRequest, code: ResponseCode, prpr: bool)
    requires q.NeedsResponse() && q.rid < 65536
    ensures var a := Response(q, code, prpr);
            && a.Answered? && a.payload < TWO_64
            && GetBits(63, 48, a.payload) == q.rid && GetBits(47, 44, a.payload) == code.Bits()
            && GetBits(40, 32, a.payload) == GetBits(11, 3, q.payload)
            && (a.pv ==> q.pv && a.pid == q.pid)
            && (code.ResponseFailure? && q.pv ==> a.pv)
  {
    var prgi := GetBits(11, 3, q.payload);
    FieldBound(11, 3, q.payload);
    SmallPowers();
    hide GetBits, Or, Pow2;
    PackFields(q.rid, code.Bits(), prgi);
  }

  lemma PackFields(rid: nat, code: nat, prgi: nat)
    requires rid < 65536 && code < 16 && prgi < 512
    ensures var p := Or(Or(rid * BIT_48, code * BIT_44), prgi * BIT_32);
            p < TWO_64 && GetBits(63, 48, p) == rid && GetBits(47, 44, p) == code && GetBits(40, 32, p) == prgi
  {
    PackedValue(rid, code, prgi);
    UnpackFields(rid, code, prgi);
  }

  lemma PackedValue(rid: nat, code: nat, prgi: nat)
    requires rid < 65536 && code < 16 && prgi < 512
    ensures Or(Or(rid * BIT_48, code * BIT_44), prgi * BIT_32) == ((rid * 16 + code) * 4096 + prgi) * BIT_32
  {
    Pow2Of64();
    SmallPowers();
    hide Pow2, Or, Low, Shr;
    var mid := rid * 16 + code;
    ShrOfMultiple(rid, 48, 0);
    OrIsPlus(rid * BIT_48, code * BIT_44, 48);
    ShrOfMultiple(mid, 44, 0);
    OrIsPlus(mid * BIT_44, prgi * BIT_32, 44);
  }

  lemma UnpackFields(rid: nat, code: nat, prgi: nat)
    requires rid < 65536 && code < 16 && prgi < 512
    ensures var p := ((rid * 16 + code) * 4096 + prgi) * BIT_32;
            GetBits(63, 48, p) == rid && GetBits(47, 44, p) == code && GetBits(40, 32, p) == prgi
  {
    Pow2Of64();
    SmallPowers();
    hide Pow2, Low, Shr;
    var mid := rid * 16 + code;
    var low := mid * 4096 + prgi;
    ShrOfMultiple(low, 32, 0);
    ShrShr(low * BIT_32, 32, 12);
    ShrShr(low * BIT_32, 44, 4);
    ShrOfMultiple(mid, 12, prgi);
    ShrOfMultiple(rid, 4, code);
    LowLow(low, 9, 12);
    ShrZero(prgi, 9);
    ShrZero(rid, 16);
  }

  lemma SmallPowers()
    ensures Pow2(4) == 16 && Pow2(9) == 512 && Pow2(12) == 4096 && Pow2(16) == 65536 && Pow2(44) == BIT_44
  {
    Pow2Plus8(0); Pow2Plus8(4); Pow2Plus8(8); Pow2Plus8(32); Pow2Plus8(36);
    Pow2Of64();
    assert Pow2(36) == 16 * Pow2(32);
  }

  // ---------------------------------------------------------------- the response code

  /** The causes for which the code's comment gives a response code. */
  function Intended(cause: nat): Option<ResponseCode> {
    if cause in {256, 257, 258, 259} then Some(ResponseFailure) else if cause == 260 then Some(InvalidRequest) else None
  }

  /** The walk for the device comes to a word at level `i` that is accessible and poisoned. */
  predicate PoisonAt(c: X.Config, t: D.Tree, id: nat, i: nat, m: P.Store) {
    B.Comes(c, t, id, i, m) &&
    var addr := B.ReadAt(c, t, id, i, m);
    && (if i == 0 then addr else B.TableAt(c, t, id, i, m).value) < Pow2(c.caps.pas)
    && addr !in m.loadViolations && addr in m.poisoned
  }

  lemma PoisonStops(c: X.Config, t: D.Tree, id: nat, i: nat, m: P.Store)
    requires D.ValidTree(t) && PoisonAt(c, t, id, i, m)
    ensures D.LocateDevice(c, t, id, m) == D.Failed(268)
  {
    B.WalkComes(c, t, id, i, m);
    hide Pow2, B.TableAt, D.LocateDevice, D.DeviceIndex;
  }

  lemma {:induction false} PoisonFound(c: X.Config, t: D.Tree, id: nat, i: nat, m: P.Store) returns (k: nat)
    requires B.Comes(c, t, id, i, m)
    requires D.LocateDeviceFrom(c, t, id, i, B.TableAt(c, t, id, i, m).value, m) == D.Failed(268)
    ensures PoisonAt(c, t, id, k, m)
    decreases i
  {
    hide Pow2, D.DeviceIndex, X.Misconfigured;
    if B.ReadAt(c, t, id, i, m) in m.poisoned { return i; }
    k := PoisonFound(c, t, id, i - 1, m);
  }

  /** A device is not located because of poison, cause 268, exactly if its walk comes to a poisoned word. */
  lemma PoisonedIff(c: X.Config, t: D.Tree, id: nat, m: P.Store)
    requires D.ValidTree(t)
    ensures D.LocateDevice(c, t, id, m) == D.Failed(268) <==> exists i :: PoisonAt(c, t, id, i, m)
  {
    hide PoisonAt, D.LocateDeviceFrom;
    if D.LocateDevice(c, t, id, m) == D.Failed(268) { var k := PoisonFound(c, t, id, t.levels - 1, m); }
    forall i | PoisonAt(c, t, id, i, m) ensures D.LocateDevice(c, t, id, m) == D.Failed(268) { PoisonStops(c, t, id, i, m); }
  }

  /** A request whose device cannot be located is refused with "response failure", whatever the cause;
      the comment says so too, exactly unless the walk comes to a poisoned word. */
  lemma UnlocatedCode(c: X.Config, mode: DirectoryMode, t: D.Tree, dcs: seq<Entry<nat, X.DeviceContext>>, m: P.Store, q: PageRequest)
    requires D.ValidTree(t) && LooksUp(mode, c.caps.msiFlat, q) && DeviceBy(c, t, dcs, q.DeviceId(), m).Failed?
    ensures var l := DeviceBy(c, t, dcs, q.DeviceId(), m);
            && Admit(mode, c.caps.msiFlat, BitsOf(l), q) == Refused(l.cause, false, ResponseFailure, false)
            && (Intended(l.cause) == Some(ResponseFailure) <==> !exists i :: PoisonAt(c, t, q.DeviceId(), i, m))
  {
    D.DeviceCauses(c, t, q.DeviceId(), t.levels - 1, t.root * PAGE_SIZE, m);
    PoisonedIff(c, t, q.DeviceId(), m);
    hide TooWide, D.LocateDevice, D.LocateDeviceFrom, PoisonAt;
  }

  /** For instance poison in the root entry. */
  lemma PoisonedRoot(c: X.Config, t: D.Tree, m: P.Store, id: nat)
    requires D.ValidTree(t) && t.levels > 1 && t.root * PAGE_SIZE < Pow2(c.caps.pas)
    requires var addr := t.root * PAGE_SIZE + D.DeviceIndex(c.caps.msiFlat, t.levels - 1, id) * 8;
             addr in m.poisoned && addr !in m.loadViolations
    ensures D.LocateDevice(c, t, id, m) == D.Failed(268) && Intended(268) == None
  {
    hide D.DeviceIndex, Pow2, D.LocateDevice;
    PoisonStops(c, t, id, t.levels - 1, m);
  }
}
