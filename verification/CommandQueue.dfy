/** The command queue: ATS invalidation requests and their tags, IOFENCE, and the registers that
    start and stop the queue. */
module CommandQueue {
  import opened Bits
  import opened Interrupts

  const CQ_ENTRY_SZ: nat := 16
  const MAX_ITAGS: nat := 2

  // ---------------------------------------------------------------- state

  datatype Tag = Tag(busy: bool, dsv: bool, dseg: nat, rid: nat, rsp: nat)

  /** Whom an ATS message goes to and what it carries. */
  datatype AtsMessage = AtsMessage(dsv: bool, dseg: nat, rid: nat, pv: bool, pid: nat, payload: nat)

  datatype Fence = Fence(pr: bool, pw: bool, av: bool, wsi: bool, addr: nat, data: nat)

  /** A command as decoded; `Local` stands for the cache invalidations, whose effect is elsewhere. */
  datatype Command = Illegal | Local | Inval(msg: AtsMessage) | Prgr(msg: AtsMessage) | FenceC(fence: Fence)

  datatype Fetched = LoadFault | Loaded(cmd: Command)

  /** An invalidation completion: its tag vector, completion count and sender. */
  datatype Completion = Completion(vector: nat, cc: nat, dsv: bool, dseg: nat, rid: nat)

  /** What the queue does, as a trace: ATS.INVAL commands taken up, their messages, the responses heard to
      them and their ends, by a response or by a timeout; timeouts, the effects of fences, starts of the queue,
      and commands left behind by `cqh`. */
  datatype Act =
    | Opened
    | Sent(tag: nat, msg: AtsMessage)
    | Heard(tag: nat, from: Completion)
    | Closed(tag: nat, late: bool)
    | TimedOut
    | TimeoutReported
    | Synced(pr: bool, pw: bool)
    | FenceStored(addr: nat, data: nat)
    | Responded(msg: AtsMessage)
    | Started
    | Retired(index: nat, fence: bool)

  datatype State = State(
    dev: Device, cq: Ring, tags: seq<Tag>, waiting: bool, fence: Fence, stalled: bool, blocked: AtsMessage,
    timeout: bool, trace: seq<Act>)
  {
    function Csr(): CqCsr { dev.regs.cqcsr }
  }

  predicate ValidState(s: State) {
    && ValidDevice(s.dev) && |s.tags| == MAX_ITAGS
    && s.cq.log2szm1 < 32 && s.cq.tail < s.cq.Entries() && (s.Csr().cqon ==> s.cq.head < s.cq.Entries())
  }

  predicate BitSet(vector: nat, i: nat) { GetBits(i, i, vector) == 1 }

  // ---------------------------------------------------------------- what the functions do

  function Did(s: State, a: Act): State { s.(trace := s.trace + [a]) }

  function WithCsr(s: State, c: CqCsr): State { s.(dev := s.dev.(regs := s.dev.regs.(cqcsr := c))) }

  /** An interrupt, and what it sets off, leaves `cqcsr` alone. */
  lemma InterruptKeepsCsr(d: Device, u: Unit)
    requires ValidDevice(d)
    ensures GenerateInterrupt(d, u).regs.cqcsr == d.regs.cqcsr && GenerateInterrupt(d, u).regs.pas == d.regs.pas
    decreases ClearBits(d.regs.ipsr), 0
  {
    if !Pending(d.regs.ipsr, u) && EnabledFor(d.regs, u) {
      var d1 := d.(regs := d.regs.(ipsr := Raise(d.regs.ipsr, u)));
      MsiKeepsCsr(d1, d.regs.msiTable[VectorOf(d.regs, u)]);
    }
  }

  lemma MsiKeepsCsr(d: Device, e: MsiEntry)
    requires ValidDevice(d)
    ensures DoMsi(d, e).regs.cqcsr == d.regs.cqcsr && DoMsi(d, e).regs.pas == d.regs.pas
    decreases ClearBits(d.regs.ipsr), 2
  {
    if StoreStatus(d.regs.pas, d.mem, e.addr).AccessFault? { ReportKeepsCsr(d, MsiFault(e.addr), false); }
  }

  lemma ReportKeepsCsr(d: Device, rec: FaultRecord, dtf: bool)
    requires ValidDevice(d)
    ensures ReportFault(d, rec, dtf).regs.cqcsr == d.regs.cqcsr && ReportFault(d, rec, dtf).regs.pas == d.regs.pas
    decreases ClearBits(d.regs.ipsr), 1
  {
    hide ValidDevice, Pow2, Low;
    if FaultsAccepted(d, rec.cause, dtf) {
      EnqueuedIsValid(d, Normal(rec));
      InterruptKeepsCsr(Enqueued(d, Normal(rec)), FaultUnit);
    }
  }

  /** Nothing but the device, the timeout flag and the trace differ, and of `cqcsr` only error bits. */
  predicate OnlyEffects(s: State, s': State) {
    && s'.cq == s.cq && s'.tags == s.tags && s'.waiting == s.waiting && s'.fence == s.fence
    && s'.stalled == s.stalled && s'.blocked == s.blocked
    && s'.Csr().cqon == s.Csr().cqon && s'.Csr().cqen == s.Csr().cqen && s'.Csr().busy == s.Csr().busy
    && s'.Csr().cie == s.Csr().cie
  }

  function Signal(s: State): (s': State)
    requires ValidState(s)
    ensures ValidState(s') && OnlyEffects(s, s') && s'.Csr() == s.Csr() && s'.trace == s.trace && s'.timeout == s.timeout
  {
    InterruptKeepsCsr(s.dev, CommandUnit);
    s.(dev := GenerateInterrupt(s.dev, CommandUnit))
  }

  /** An error bit is set, and signalled unless it was set before. */
  function Raised(s: State, already: bool, c: CqCsr): (s': State)
    requires ValidState(s) && c.cqon == s.Csr().cqon && c.cqen == s.Csr().cqen && c.busy == s.Csr().busy && c.cie == s.Csr().cie
    ensures ValidState(s') && OnlyEffects(s, s') && s'.trace == s.trace && s'.timeout == s.timeout
  {
    if already then s else Signal(WithCsr(s, c))
  }

  /** The first free tag at or after `i`. */
  function FreeTag(tags: seq<Tag>, i: nat): (k: nat)
    requires i <= |tags|
    ensures i <= k <= |tags| && (k < |tags| ==> !tags[k].busy)
    ensures forall j | i <= j < k :: tags[j].busy
    decreases |tags| - i
  {
    if i < |tags| && tags[i].busy then FreeTag(tags, i + 1) else i
  }

  predicate AnyBusy(tags: seq<Tag>) { exists i | 0 <= i < |tags| :: tags[i].busy }

  predicate AllBusy(tags: seq<Tag>) { forall i | 0 <= i < |tags| :: tags[i].busy }

  /** A tag is taken for `msg` and the message sent under it. */
  function Send(s: State, k: nat, msg: AtsMessage): State
    requires k < |s.tags|
  {
    Did(s.(tags := s.tags[k := Tag(true, msg.dsv, msg.dseg, msg.rid, 0)]), Sent(k, msg))
  }

  function Retire(s: State, fence: bool): State {
    Did(s.(cq := s.cq.(head := s.cq.Next(s.cq.head))), Retired(s.cq.head, fence))
  }

  /** The fence's data is stored, if it has any to store. */
  function FenceStores(s: State, f: Fence): (s': State)
    requires ValidState(s)
    ensures ValidState(s') && OnlyEffects(s, s')
  {
    if f.av then Did(s.(dev := Stored(s.dev, FenceStore(f.addr, f.data))), FenceStored(f.addr, f.data)) else s
  }

  /** A timeout is reported in `cmd_to`. */
  function ReportTimeout(s: State): (s': State)
    requires ValidState(s)
    ensures ValidState(s') && OnlyEffects(s, s')
  {
    Did(Raised(s, s.Csr().cmd_to, s.Csr().(cmd_to := true)).(timeout := false), TimeoutReported)
  }

  function FenceSyncs(s: State, f: Fence): (s': State)
    requires ValidState(s)
    ensures ValidState(s') && OnlyEffects(s, s') && s'.dev == s.dev
  {
    if f.pr || f.pw then Did(s, Synced(f.pr, f.pw)) else s
  }

  function MemoryFault(s: State): (s': State)
    requires ValidState(s)
    ensures ValidState(s') && OnlyEffects(s, s') && s'.trace == s.trace && s'.timeout == s.timeout
  {
    Raised(s, s.Csr().cqmf, s.Csr().(cqmf := true))
  }

  function FenceInterrupts(s: State, f: Fence): (s': State)
    requires ValidState(s)
    ensures ValidState(s') && OnlyEffects(s, s') && s'.trace == s.trace && s'.timeout == s.timeout
  {
    Raised(s, s.Csr().fence_w_ip || !f.wsi, s.Csr().(fence_w_ip := true))
  }

  /** The fence synchronizes, stores and interrupts; the flag says that its store failed. */
  function FenceCompletes(s: State, f: Fence): (r: (State, bool))
    requires ValidState(s)
    ensures ValidState(r.0) && OnlyEffects(s, r.0)
  {
    hide MemoryFault, FenceSyncs, FenceInterrupts, FenceStores, ValidState;
    var s1 := FenceSyncs(s, f);
    if f.av && !StoreStatus(s.dev.regs.pas, s.dev.mem, f.addr).Okay? then (MemoryFault(s1), true)
    else (FenceInterrupts(FenceStores(s1, f), f), false)
  }

  /** The end of a fence no tag holds up; the flag says that it stays at the head. */
  function FenceEnds(s: State, f: Fence): (r: (State, bool))
    requires ValidState(s)
    ensures ValidState(r.0) && OnlyEffects(s, r.0)
  {
    if s.timeout then (ReportTimeout(s), true) else FenceCompletes(s, f)
  }

  function DoFence(s: State, f: Fence): (r: (State, bool))
    requires ValidState(s)
    ensures ValidState(r.0) && OnlyEffects(s.(waiting := AnyBusy(s.tags), fence := r.0.fence), r.0)
  {
    if AnyBusy(s.tags) then (s.(waiting := true, fence := f), true)
    else FenceEnds(s.(waiting := false), f)
  }

  function PendingFence(s: State): (s': State)
    requires ValidState(s) && s.Csr().cqon
    ensures ValidState(s')
  {
    var (s1, stays) := DoFence(s, s.fence);
    NextInRing(s1.cq, s1.cq.head);
    var s2 := if stays then s1 else Retire(s1, true);
    if s2.waiting then s2 else WithCsr(s2, s2.Csr().(cqon := s2.Csr().cqen, busy := false))
  }

  function Unblock(s: State): (s': State)
    requires ValidState(s)
    ensures ValidState(s')
  {
    var k := FreeTag(s.tags, 0);
    if s.stalled && k < |s.tags| then Send(s, k, s.blocked).(stalled := false) else s
  }

  /** `do_pending_iofence_inval_reqs` */
  function Resume(s: State): (s': State)
    requires ValidState(s) && (s.waiting ==> s.Csr().cqon)
    ensures ValidState(s')
  {
    var s1 := if s.waiting && !AnyBusy(s.tags) then PendingFence(s) else s;
    if s1.waiting then s1 else Unblock(s1)
  }

  predicate Accepts(t: Tag, m: Completion) {
    t.busy && (t.dsv ==> m.dsv && m.dseg == t.dseg) && t.rid == m.rid
  }

  function Counted(t: Tag, m: Completion): Tag {
    var n := (t.rsp + 1) % 8;
    t.(rsp := n, busy := t.busy && n != m.cc)
  }

  /** A response is credited to the request under tag `i`, which it may end. */
  function Credited(s: State, i: nat, m: Completion): (s': State)
    requires ValidState(s) && i < |s.tags|
    ensures ValidState(s') && s'.waiting == s.waiting && s'.Csr() == s.Csr()
  {
    var s1 := Did(s.(tags := s.tags[i := Counted(s.tags[i], m)]), Heard(i, m));
    if s1.tags[i].busy then s1 else Did(s1, Closed(i, false))
  }

  /** A request under tag `i` is given up. */
  function Lapsed(s: State, i: nat): (s': State)
    requires ValidState(s) && i < |s.tags|
    ensures ValidState(s') && s'.waiting == s.waiting && s'.Csr() == s.Csr()
  {
    var s1 := s.(tags := s.tags[i := s.tags[i].(busy := false)]);
    if s.tags[i].busy then Did(s1, Closed(i, true)) else s1
  }

  /** The loop of `handle_invalidation_completion` from tag `i`; the flag reports an unexpected one. */
  function CompleteFrom(s: State, i: nat, m: Completion): (r: (State, bool))
    requires ValidState(s) && i <= |s.tags|
    ensures ValidState(r.0) && r.0.waiting == s.waiting && r.0.Csr() == s.Csr()
    decreases |s.tags| - i
  {
    if i == |s.tags| then (s, false)
    else if !BitSet(m.vector, i) then CompleteFrom(s, i + 1, m)
    else if !Accepts(s.tags[i], m) then (s, true)
    else CompleteFrom(Credited(s, i, m), i + 1, m)
  }

  function Complete(s: State, m: Completion): (r: (State, bool))
    requires ValidState(s) && (s.waiting ==> s.Csr().cqon)
    ensures ValidState(r.0)
  {
    var (s1, unexpected) := CompleteFrom(s, 0, m);
    if unexpected then (s1, true) else (Resume(s1), false)
  }

  function ExpireFrom(s: State, i: nat, vector: nat): (s': State)
    requires ValidState(s) && i <= |s.tags|
    ensures ValidState(s') && s'.waiting == s.waiting && s'.Csr() == s.Csr()
    decreases |s.tags| - i
  {
    if i == |s.tags| then s
    else if !BitSet(vector, i) then ExpireFrom(s, i + 1, vector)
    else ExpireFrom(Lapsed(s, i), i + 1, vector)
  }

  /** `do_ats_timer_expiry` */
  function Expire(s: State, vector: nat): (s': State)
    requires ValidState(s) && (s.waiting ==> s.Csr().cqon)
    ensures ValidState(s')
  {
    Resume(Did(ExpireFrom(s, 0, vector).(timeout := true), TimedOut))
  }

  predicate Ready(s: State) {
    var c := s.Csr();
    c.cqon && c.cqen && !c.cqmf && !c.cmd_ill && !c.cmd_to && !s.stalled && !s.waiting
  }

  /** A wired interrupt is illegal where the IOMMU signals by message. */
  predicate IllegalHere(s: State, c: Command) { c.Illegal? || (c.FenceC? && c.fence.wsi && !s.dev.regs.wsi) }

  /** Executes one command at the head. */
  function Execute(s: State, c: Command): (s': State)
    requires ValidState(s) && s.Csr().cqon
    ensures ValidState(s')
  {
    hide DoFence, Signal, Pow2, Low;
    NextInRing(s.cq, s.cq.head);
    if IllegalHere(s, c) then Signal(WithCsr(s, s.Csr().(cmd_ill := true)))
    else match c
      case FenceC(f) => var (s1, stays) := DoFence(s, f); if stays then s1 else Retire(s1, true)
      case Inval(m) =>
        var k := FreeTag(s.tags, 0);
        Retire(if k < |s.tags| then Send(Did(s, Opened), k, m) else Did(s, Opened).(stalled := true, blocked := m), false)
      case Prgr(m) => Retire(Did(s, Responded(m)), false)
      case _ => Retire(s, false)
  }

  /** `process_commands`, with what the load of the command gives as a parameter */
  function Process(s: State, fetched: Fetched): (s': State)
    requires ValidState(s)
    ensures ValidState(s')
  {
    if !Ready(s) || s.cq.head == s.cq.tail then s
    else if fetched.LoadFault? || s.cq.SlotAddr(s.cq.head, CQ_ENTRY_SZ) >= Pow2(s.dev.regs.pas) then
      Signal(WithCsr(s, s.Csr().(cqmf := true)))
    else Execute(s, fetched.cmd)
  }

  /** A write to `cqcsr` */
  datatype CqWrite = CqWrite(en: bool, ie: bool, clearMf: bool, clearTo: bool, clearIll: bool, clearFence: bool)

  function CqCsrAfter(c: CqCsr, w: CqWrite, waiting: bool): CqCsr {
    var starts := w.en && !c.cqen;
    var on := if w.en == c.cqen then c.cqon else w.en || (c.cqon && waiting);
    CqCsr(w.en, w.ie, c.cqmf && !starts && !w.clearMf, c.cmd_to && !starts && !w.clearTo,
          c.cmd_ill && !starts && !w.clearIll, c.fence_w_ip && !starts && !w.clearFence, on, w.en != on)
  }

  function WriteCqcsr(s: State, w: CqWrite): (s': State)
    requires ValidState(s)
    ensures ValidState(s')
  {
    var c := s.Csr();
    if c.busy then s
    else if w.en && !c.cqen then Did(WithCsr(s.(cq := s.cq.(head := 0)), CqCsrAfter(c, w, s.waiting)), Started)
    else WithCsr(s, CqCsrAfter(c, w, s.waiting))
  }

  /** A write to `cqb` is dropped while the queue is on or busy. */
  function WriteCqb(s: State, ppn: nat, log2szm1: nat): (s': State)
    requires ValidState(s) && log2szm1 < 32
    ensures ValidState(s')
  {
    if s.Csr().busy || s.Csr().cqon then s else s.(cq := Ring(ppn, log2szm1, s.cq.head, 0))
  }

  function WriteCqt(s: State, index: nat): (s': State)
    requires ValidState(s)
    ensures ValidState(s')
  {
    LowBound(index, s.cq.Lg());
    s.(cq := s.cq.(tail := Low(index, s.cq.Lg())))
  }
}
