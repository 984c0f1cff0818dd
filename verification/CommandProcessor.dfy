/** The code of the command queue and the ATS tags, refining CommandQueue. */
module CommandProcessor {
  import opened Bits
  import opened Common
  import opened Interrupts
  import opened CommandQueue

  class Processor {
    const io: Iommu
    const tags: array<Tag>
    var cq: Ring
    var waiting: bool
    var fence: Fence
    var stalled: bool
    var blocked: AtsMessage
    var timeout: bool
    var trace: seq<Act>

    constructor (io: Iommu, cq: Ring)
      ensures this.io == io && fresh(tags) && tags.Length == MAX_ITAGS && this.cq == cq
      ensures !waiting && !stalled && !timeout && trace == [] && forall i | 0 <= i < MAX_ITAGS :: !tags[i].busy
    {
      this.io, this.cq := io, cq;
      tags := new Tag[MAX_ITAGS](_ => Tag(false, false, 0, 0, 0));
      waiting, stalled, timeout, trace := false, false, false, [];
      fence, blocked := Fence(false, false, false, false, 0, 0), AtsMessage(false, 0, 0, false, 0, 0);
    }

    function Contents(): State
      reads this, tags, io, io.msiPending
    {
      State(io.State(), cq, tags[..], waiting, fence, stalled, blocked, timeout, trace)
    }

    ghost predicate Valid()
      reads this, tags, io, io.msiPending
    {
      ValidState(Contents())
    }

    /** `cqcsr` is set to `c` and the command queue signals. */
    method SetAndSignal(c: CqCsr)
      requires Valid() && c.cqon == io.regs.cqcsr.cqon
      modifies io, io.msiPending
      ensures Contents() == Signal(WithCsr(old(Contents()), c)) && Valid()
    {
      io.regs := io.regs.(cqcsr := c);
      io.GenerateInterruptCode(CommandUnit);
    }

    /** `allocate_itag` */
    method AllocateItag(msg: AtsMessage) returns (none: bool, itag: nat)
      requires Valid()
      modifies tags
      ensures itag == FreeTag(old(tags[..]), 0) && none == (itag == MAX_ITAGS)
      ensures tags[..] == if none then old(tags[..]) else old(tags[..])[itag := Tag(true, msg.dsv, msg.dseg, msg.rid, 0)]
    {
      itag := 0;
      while itag < MAX_ITAGS && tags[itag].busy
        invariant itag <= MAX_ITAGS && FreeTag(tags[..], 0) == FreeTag(tags[..], itag)
      {
        itag := itag + 1;
      }
      none := itag == MAX_ITAGS;
      if !none { tags[itag] := Tag(true, msg.dsv, msg.dseg, msg.rid, 0); }
    }

    /** `any_ats_invalidation_requests_pending` */
    method AnyPending() returns (any: bool)
      requires Valid()
      ensures any == AnyBusy(tags[..])
    {
      for i := 0 to MAX_ITAGS
        invariant forall j | 0 <= j < i :: !tags[j].busy
      {
        if tags[i].busy { return true; }
      }
      any := false;
    }

    /** `do_iofence_c` */
    method DoIofenceC(f: Fence) returns (stays: bool)
      requires Valid()
      modifies this`waiting, this`fence, this`timeout, this`trace, io, io.msiPending
      ensures (Contents(), stays) == DoFence(old(Contents()), f) && Valid()
    {
      waiting := true;
      var any := AnyPending();
      if any {
        fence := f;
        return true;
      }
      waiting := false;
      stays := EndFence(f);
    }

    /** The part of `do_iofence_c` after the wait */
    method EndFence(f: Fence) returns (stays: bool)
      requires Valid()
      modifies this`timeout, this`trace, io, io.msiPending
      ensures (Contents(), stays) == FenceEnds(old(Contents()), f) && Valid()
    {
      if timeout {
        ReportTimeoutCode();
        return true;
      }
      if f.pr || f.pw { trace := trace + [Synced(f.pr, f.pw)]; }
      if f.av {
        var failed := StoreFence(f);
        if failed { return true; }
      }
      InterruptForFence(f);
      stays := false;
    }

    method ReportTimeoutCode()
      requires Valid()
      modifies this`timeout, this`trace, io, io.msiPending
      ensures Contents() == ReportTimeout(old(Contents())) && Valid()
    {
      if !io.regs.cqcsr.cmd_to { SetAndSignal(io.regs.cqcsr.(cmd_to := true)); }
      timeout := false;
      trace := trace + [TimeoutReported];
    }

    /** The store of the fence's data */
    method StoreFence(f: Fence) returns (failed: bool)
      requires Valid() && f.av
      modifies this`trace, io, io.msiPending
      ensures failed == !StoreStatus(old(io.regs.pas), old(io.mem), f.addr).Okay?
      ensures Contents() == (if failed then MemoryFault(old(Contents())) else FenceStores(old(Contents()), f)) && Valid()
    {
      var status := io.Write(FenceStore(f.addr, f.data));
      if !status.Okay? {
        if !io.regs.cqcsr.cqmf { SetAndSignal(io.regs.cqcsr.(cqmf := true)); }
        return true;
      }
      trace := trace + [FenceStored(f.addr, f.data)];
      failed := false;
    }

    method InterruptForFence(f: Fence)
      requires Valid()
      modifies io, io.msiPending
      ensures Contents() == FenceInterrupts(old(Contents()), f) && Valid()
    {
      if !io.regs.cqcsr.fence_w_ip && f.wsi { SetAndSignal(io.regs.cqcsr.(fence_w_ip := true)); }
    }

    method AdvanceHead(fence: bool)
      requires Valid() && io.regs.cqcsr.cqon
      modifies `cq, `trace
      ensures Contents() == Retire(old(Contents()), fence) && Valid()
    {
      hide And, Low, Pow2;
      var next := Iommu.NextIndex(cq.(tail := cq.head));
      trace := trace + [Retired(cq.head, fence)];
      cq := cq.(head := next);
    }

    /** `do_pending_iofence` */
    method DoPendingIofence()
      requires Valid() && io.regs.cqcsr.cqon
      modifies `cq, `waiting, `fence, `timeout, `trace, io, io.msiPending
      ensures Contents() == PendingFence(old(Contents())) && Valid()
    {
      hide DoFence, Pow2, Low;
      var stays := DoIofenceC(fence);
      if !stays { AdvanceHead(true); }
      if !waiting { io.regs := io.regs.(cqcsr := io.regs.cqcsr.(cqon := io.regs.cqcsr.cqen, busy := false)); }
    }

    /** `queue_any_blocked_ats_inval_req` */
    method QueueAnyBlocked()
      requires Valid()
      modifies `stalled, `trace, tags
      ensures Contents() == Unblock(old(Contents())) && Valid()
    {
      if stalled {
        var none, itag := AllocateItag(blocked);
        if none { return; }
        trace := trace + [Sent(itag, blocked)];
        stalled := false;
      }
    }

    /** `do_pending_iofence_inval_reqs` */
    method DoPending()
      requires Valid() && (waiting ==> io.regs.cqcsr.cqon)
      modifies this, tags, io, io.msiPending
      ensures Contents() == Resume(old(Contents())) && Valid()
    {
      hide PendingFence, Unblock, Pow2;
      var itagsBusy := AnyPending();
      if waiting && !itagsBusy { DoPendingIofence(); }
      if !waiting { QueueAnyBlocked(); }
    }

    /** `handle_invalidation_completion` */
    method HandleInvalidationCompletion(m: Completion) returns (unexpected: bool)
      requires Valid() && (waiting ==> io.regs.cqcsr.cqon)
      modifies this, tags, io, io.msiPending
      ensures (Contents(), unexpected) == Complete(old(Contents()), m)
    {
      hide Resume, BitSet, ValidDevice, Pow2;
      for i := 0 to MAX_ITAGS
        invariant Valid() && (waiting ==> io.regs.cqcsr.cqon)
        invariant CompleteFrom(Contents(), i, m) == CompleteFrom(old(Contents()), 0, m)
      {
        if BitSet(m.vector, i) {
          if !tags[i].busy { return true; }
          if tags[i].dsv && (!m.dsv || m.dseg != tags[i].dseg) { return true; }
          if tags[i].rid != m.rid { return true; }
          CountResponse(i, m);
        }
      }
      DoPending();
      unexpected := false;
    }

    /** One response to the request under tag `i` */
    method CountResponse(i: nat, m: Completion)
      requires Valid() && i < MAX_ITAGS && tags[i].busy
      modifies tags, `trace
      ensures Valid()
      ensures Contents() == Credited(old(Contents()), i, m)
    {
      hide ValidDevice, Pow2;
      tags[i] := tags[i].(rsp := (tags[i].rsp + 1) % 8);
      trace := trace + [Heard(i, m)];
      if tags[i].rsp == m.cc {
        tags[i] := tags[i].(busy := false);
        trace := trace + [Closed(i, false)];
      }
    }

    /** `do_ats_timer_expiry` */
    method DoAtsTimerExpiry(vector: nat)
      requires Valid() && (waiting ==> io.regs.cqcsr.cqon)
      modifies this, tags, io, io.msiPending
      ensures Contents() == Expire(old(Contents()), vector)
    {
      hide Resume, BitSet, ValidDevice, Pow2;
      for i := 0 to MAX_ITAGS
        invariant Valid() && (waiting ==> io.regs.cqcsr.cqon)
        invariant ExpireFrom(Contents(), i, vector) == ExpireFrom(old(Contents()), 0, vector)
      {
        if BitSet(vector, i) {
          if tags[i].busy { trace := trace + [Closed(i, true)]; }
          tags[i] := tags[i].(busy := false);
        }
      }
      timeout := true;
      trace := trace + [TimedOut];
      DoPending();
    }

    /** `process_commands` */
    method ProcessCommands(fetched: Fetched)
      requires Valid()
      modifies this, tags, io, io.msiPending
      ensures Contents() == Process(old(Contents()), fetched)
    {
      hide Execute, Signal, Or, Pow2, Low;
      var c := io.regs.cqcsr;
      if !c.cqon || !c.cqen || c.cqmf || c.cmd_ill || c.cmd_to || stalled || waiting { return; }
      if cq.head == cq.tail { return; }
      var a := Or(cq.ppn * PAGE_SIZE, cq.head * CQ_ENTRY_SZ);
      if a >= Pow2(io.regs.pas) || fetched.LoadFault? {
        SetAndSignal(c.(cqmf := true));
        return;
      }
      ExecuteCode(fetched.cmd);
    }

    /** The switch of `process_commands` on the command */
    method ExecuteCode(c: Command)
      requires Valid() && io.regs.cqcsr.cqon
      modifies this, tags, io, io.msiPending
      ensures Contents() == Execute(old(Contents()), c)
    {
      hide DoFence, Signal, Pow2, Low;
      match c {
        case Illegal => SetAndSignal(io.regs.cqcsr.(cmd_ill := true));
        case Local => AdvanceHead(false);
        case FenceC(f) =>
          if !io.regs.wsi && f.wsi {
            SetAndSignal(io.regs.cqcsr.(cmd_ill := true));
            return;
          }
          var stays := DoIofenceC(f);
          if !stays { AdvanceHead(true); }
        case Inval(m) =>
          trace := trace + [Opened];
          var none, itag := AllocateItag(m);
          if none {
            blocked, stalled := m, true;
          } else {
            trace := trace + [Sent(itag, m)];
          }
          AdvanceHead(false);
        case Prgr(m) =>
          trace := trace + [Responded(m)];
          AdvanceHead(false);
      }
    }

    // The cases of write_register

    method WriteCqbCode(ppn: nat, log2szm1: nat)
      requires Valid() && log2szm1 < 32
      modifies `cq
      ensures Contents() == WriteCqb(old(Contents()), ppn, log2szm1) && Valid()
    {
      if io.regs.cqcsr.busy || io.regs.cqcsr.cqon { return; }
      cq := cq.(ppn := ppn);
      cq := cq.(log2szm1 := log2szm1);
      cq := cq.(tail := 0);
    }

    method WriteCqtCode(index: nat)
      requires Valid()
      modifies `cq
      ensures Contents() == WriteCqt(old(Contents()), index) && Valid()
    {
      AndLowMask(index, cq.Lg());
      cq := cq.(tail := And(index, Pow2(cq.log2szm1 + 1) - 1));
    }

    method WriteCqcsrCode(w: CqWrite)
      requires Valid()
      modifies `cq, `trace, io
      ensures Contents() == WriteCqcsr(old(Contents()), w) && Valid()
    {
      hide CqCsrAfter, ValidDevice, Pow2;
      if io.regs.cqcsr.busy { return; }
      NotOnUnlessStarted(io.regs.cqcsr, w, waiting);
      var c := UpdateCsr(io.regs.cqcsr, w);
      if io.regs.cqcsr.cqen != w.en && w.en {
        cq := cq.(head := 0);
        trace := trace + [Started];
      }
      io.regs := io.regs.(cqcsr := c);
    }

    /** The bits of `cqcsr` */
    method UpdateCsr(csr: CqCsr, w: CqWrite) returns (c: CqCsr)
      requires !csr.busy
      ensures c == CqCsrAfter(csr, w, waiting)
    {
      var switched := SwitchQueue(csr, w.en);
      c := ClearErrors(switched, w);
      if c.cqen == c.cqon { c := c.(busy := false); }
    }

    /** `cqen` changes from 0 to 1 or from 1 to 0. */
    method SwitchQueue(csr: CqCsr, en: bool) returns (c: CqCsr)
      requires !csr.busy
      ensures var starts := en && !csr.cqen;
              c == CqCsr(en, csr.cie, csr.cqmf && !starts, csr.cmd_to && !starts, csr.cmd_ill && !starts, csr.fence_w_ip && !starts,
                         if en == csr.cqen then csr.cqon else en || (csr.cqon && waiting), true)
    {
      c := csr.(busy := true);
      if c.cqen != en {
        if en {
          c := c.(cmd_ill := false, cmd_to := false, cqmf := false, fence_w_ip := false);
          c := c.(cqen := true, cqon := true);
        } else {
          c := c.(cqen := false);
          if !waiting { c := c.(cqon := false); }
        }
      }
    }

    /** The interrupt enable and the bits cleared by writing 1 */
    static method ClearErrors(csr: CqCsr, w: CqWrite) returns (c: CqCsr)
      ensures c == csr.(cie := w.ie, cqmf := csr.cqmf && !w.clearMf, cmd_to := csr.cmd_to && !w.clearTo,
                        cmd_ill := csr.cmd_ill && !w.clearIll, fence_w_ip := csr.fence_w_ip && !w.clearFence)
    {
      c := csr.(cie := w.ie);
      if w.clearMf { c := c.(cqmf := false); }
      if w.clearTo { c := c.(cmd_to := false); }
      if w.clearIll { c := c.(cmd_ill := false); }
      if w.clearFence { c := c.(fence_w_ip := false); }
    }
  }

  lemma NotOnUnlessStarted(c: CqCsr, w: CqWrite, waiting: bool)
    ensures CqCsrAfter(c, w, waiting).cqon ==> c.cqon || (w.en && !c.cqen)
  {
  }
}
