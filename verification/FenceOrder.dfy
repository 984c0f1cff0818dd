/** What an IOFENCE guarantees over every run of the command queue, and when the queue can be stuck. */
module FenceOrder {
  import opened Bits
  import opened Interrupts
  import opened CommandQueue

  // ---------------------------------------------------------------- what a trace says

  /** ATS.INVAL commands taken up and not yet completed or timed out. */
  function Outstanding(t: seq<Act>): int {
    if t == [] then 0
    else
      var last := t[|t| - 1];
      Outstanding(t[..|t| - 1]) + if last.Opened? then 1 else if last.Closed? then -1 else 0
  }

  predicate Ends(a: Act, i: nat) { a.Closed? && a.tag == i }

  /** An invalidation request was sent under tag `i` and has not ended. */
  predicate TagOpen(t: seq<Act>, i: nat) {
    t != [] &&
    var last := t[|t| - 1];
    if last.Sent? && last.tag == i then true
    else if Ends(last, i) then false
    else TagOpen(t[..|t| - 1], i)
  }

  /** A timeout that software has not been told of. */
  predicate Unreported(t: seq<Act>) {
    t != [] &&
    var last := t[|t| - 1];
    last.TimedOut? || (!last.TimeoutReported? && Unreported(t[..|t| - 1]))
  }

  predicate FenceAct(a: Act) { a.Synced? || a.FenceStored? || (a.Retired? && a.fence) }

  /** What may follow the trace `t`: tags are not reused while open, only open tags end, and a fence
      takes effect with no invalidation outstanding and no timeout unreported. */
  predicate MayFollow(t: seq<Act>, a: Act) {
    && (a.Sent? ==> a.tag < MAX_ITAGS && !TagOpen(t, a.tag))
    && (a.Closed? ==> a.tag < MAX_ITAGS && TagOpen(t, a.tag))
    && (FenceAct(a) ==> Outstanding(t) == 0 && (forall i | 0 <= i < MAX_ITAGS :: !TagOpen(t, i)) && !Unreported(t))
  }

  predicate Lawful(t: seq<Act>) {
    t == [] || (Lawful(t[..|t| - 1]) && MayFollow(t[..|t| - 1], t[|t| - 1]))
  }

  lemma TraceGrows(t: seq<Act>, a: Act)
    ensures Outstanding(t + [a]) == Outstanding(t) + if a.Opened? then 1 else if a.Closed? then -1 else 0
    ensures forall i :: TagOpen(t + [a], i) ==
              if a.Sent? && a.tag == i then true else if a.Closed? && a.tag == i then false else TagOpen(t, i)
    ensures Unreported(t + [a]) == (a.TimedOut? || (!a.TimeoutReported? && Unreported(t)))
    ensures Lawful(t + [a]) == (Lawful(t) && MayFollow(t, a))
  {
    assert (t + [a])[..|t|] == t;
  }

  // ---------------------------------------------------------------- the state agrees with the trace

  function BusyCount(tags: seq<Tag>): nat {
    if tags == [] then 0 else BusyCount(tags[..|tags| - 1]) + if tags[|tags| - 1].busy then 1 else 0
  }

  lemma {:induction false} BusyCountUpdate(tags: seq<Tag>, k: nat, t: Tag)
    requires k < |tags|
    ensures BusyCount(tags[k := t]) == BusyCount(tags) + (if t.busy then 1 else 0) - (if tags[k].busy then 1 else 0)
  {
    var n := |tags| - 1;
    assert tags[k := t][..n] == if k < n then tags[..n][k := t] else tags[..n];
    if k < n { BusyCountUpdate(tags[..n], k, t); }
  }

  lemma {:induction false} NoneBusy(tags: seq<Tag>)
    ensures BusyCount(tags) == 0 <==> !AnyBusy(tags)
  {
    if tags != [] {
      var n := |tags| - 1;
      NoneBusy(tags[..n]);
      assert forall i | 0 <= i < n :: tags[..n][i] == tags[i];
    }
  }

  predicate Ledger(tags: seq<Tag>, stalled: bool, timeout: bool, t: seq<Act>) {
    && Outstanding(t) == BusyCount(tags) + (if stalled then 1 else 0)
    && (forall i | 0 <= i < |tags| :: tags[i].busy == TagOpen(t, i))
    && timeout == Unreported(t) && Lawful(t)
  }

  /** A fence waits only on a queue that is on, never together with a blocked request; the queue is
      busy just when it was turned off under a waiting fence. */
  predicate Shape(s: State) {
    && ValidState(s)
    && !(s.waiting && s.stalled) && (s.waiting ==> s.Csr().cqon)
    && s.Csr().busy == (s.Csr().cqen != s.Csr().cqon) && (s.Csr().busy ==> !s.Csr().cqen && s.waiting)
  }

  predicate Inv(s: State) { Shape(s) && Ledger(s.tags, s.stalled, s.timeout, s.trace) }

  lemma LedgerGrows(tags: seq<Tag>, stalled: bool, timeout: bool, t: seq<Act>, a: Act)
    requires Ledger(tags, stalled, timeout, t) && !a.Opened? && !a.Closed? && !a.Sent? && !a.TimedOut? && !a.TimeoutReported?
    requires |tags| == MAX_ITAGS && (FenceAct(a) ==> !AnyBusy(tags) && !stalled && !timeout)
    ensures Ledger(tags, stalled, timeout, t + [a])
  {
    TraceGrows(t, a);
    NoneBusy(tags);
  }

  /** The end of a fence with no tag busy and no request blocked is lawful. */
  lemma FenceEndsKeeps(s: State, f: Fence)
    requires ValidState(s) && Ledger(s.tags, s.stalled, s.timeout, s.trace) && !AnyBusy(s.tags) && !s.stalled
    ensures var (s1, stays) := FenceEnds(s, f);
            Ledger(s1.tags, s1.stalled, s1.timeout, s1.trace) && (!stays ==> !s1.timeout)
  {
    hide Raised, MemoryFault, FenceInterrupts, Ledger, AnyBusy, ValidDevice, Pow2;
    if s.timeout {
      LedgerReported(s.tags, s.trace);
    } else {
      var s1 := FenceSyncs(s, f);
      if f.pr || f.pw { LedgerGrows(s.tags, false, false, s.trace, Synced(f.pr, f.pw)); }
      if f.av { LedgerGrows(s.tags, false, false, s1.trace, FenceStored(f.addr, f.data)); }
    }
  }

  lemma LedgerReported(tags: seq<Tag>, t: seq<Act>)
    requires Ledger(tags, false, true, t)
    ensures Ledger(tags, false, false, t + [TimeoutReported])
  {
    TraceGrows(t, TimeoutReported);
  }

  lemma SendKeeps(s: State, k: nat, m: AtsMessage)
    requires ValidState(s) && s.stalled && k < MAX_ITAGS && !s.tags[k].busy
    requires Ledger(s.tags, true, s.timeout, s.trace)
    ensures var s1 := Send(s, k, m); Ledger(s1.tags, false, s1.timeout, s1.trace)
  {
    TraceGrows(s.trace, Sent(k, m));
    BusyCountUpdate(s.tags, k, Tag(true, m.dsv, m.dseg, m.rid, 0));
  }

  lemma FreeTagMeans(tags: seq<Tag>)
    ensures FreeTag(tags, 0) == |tags| <==> AllBusy(tags)
  {
  }

  /** Nothing is held up that could go on: a waiting fence has a busy tag to wait for, and a blocked
      request has no free tag. */
  predicate NotStuck(s: State) { (s.waiting ==> AnyBusy(s.tags)) && (s.stalled ==> AllBusy(s.tags)) }

  lemma PendingFenceKeeps(s: State)
    requires Inv(s) && s.waiting && !AnyBusy(s.tags)
    ensures Inv(PendingFence(s)) && !PendingFence(s).waiting && PendingFence(s).tags == s.tags && !PendingFence(s).stalled
  {
    var s0 := s.(waiting := false);
    FenceEndsKeeps(s0, s.fence);
    hide FenceEnds, Ledger, AnyBusy, ValidDevice, Pow2, Low;
    var (s1, stays) := FenceEnds(s0, s.fence);
    NextInRing(s1.cq, s1.cq.head);
    if !stays { LedgerGrows(s1.tags, false, false, s1.trace, Retired(s1.cq.head, true)); }
  }

  lemma UnblockKeeps(s: State)
    requires Inv(s) && !s.waiting
    ensures Inv(Unblock(s)) && NotStuck(Unblock(s)) && !Unblock(s).waiting
  {
    var k := FreeTag(s.tags, 0);
    FreeTagMeans(s.tags);
    if s.stalled && k < |s.tags| { SendKeeps(s, k, s.blocked); }
    hide Ledger, FreeTag, ValidDevice, Pow2;
  }

  /** Whatever was held up goes on as soon as it can. */
  lemma ResumeKeeps(s: State)
    requires Inv(s)
    ensures Inv(Resume(s)) && NotStuck(Resume(s))
  {
    hide Ledger, ValidDevice, Pow2, AnyBusy, PendingFence, Unblock;
    if s.waiting && !AnyBusy(s.tags) { PendingFenceKeeps(s); UnblockKeeps(PendingFence(s)); }
    else if !s.waiting { UnblockKeeps(s); }
  }

  lemma CloseKeeps(s: State, i: nat, t: Tag, late: bool)
    requires Inv(s) && i < MAX_ITAGS && s.tags[i].busy
    ensures var s1 := s.(tags := s.tags[i := t]);
            Inv(if t.busy then s1 else Did(s1, Closed(i, late)))
  {
    BusyCountUpdate(s.tags, i, t);
    TraceGrows(s.trace, Closed(i, late));
    hide ValidDevice, Pow2, Outstanding, Unreported, Lawful, TagOpen;
  }

  lemma CompleteFromKeeps(s: State, i: nat, m: Completion)
    requires Inv(s) && i <= MAX_ITAGS
    ensures Inv(CompleteFrom(s, i, m).0)
    decreases MAX_ITAGS - i
  {
    hide Ledger, ValidDevice, Pow2, BitSet;
    if i < MAX_ITAGS {
      if !BitSet(m.vector, i) { CompleteFromKeeps(s, i + 1, m); }
      else if Accepts(s.tags[i], m) {
        LedgerGrows(s.tags, s.stalled, s.timeout, s.trace, Heard(i, m));
        CloseKeeps(Did(s, Heard(i, m)), i, Counted(s.tags[i], m), false);
        CompleteFromKeeps(Credited(s, i, m), i + 1, m);
      }
    }
  }

  lemma ExpireFromKeeps(s: State, i: nat, vector: nat)
    requires Inv(s) && i <= MAX_ITAGS
    ensures Inv(ExpireFrom(s, i, vector))
    decreases MAX_ITAGS - i
  {
    hide Ledger, ValidDevice, Pow2, BitSet;
    if i < MAX_ITAGS {
      if !BitSet(vector, i) { ExpireFromKeeps(s, i + 1, vector); }
      else {
        var s1 := s.(tags := s.tags[i := s.tags[i].(busy := false)]);
        if s.tags[i].busy {
          CloseKeeps(s, i, s.tags[i].(busy := false), true);
        } else {
          assert s1 == s by { assert s.tags[i := s.tags[i]] == s.tags; }
        }
        ExpireFromKeeps(Lapsed(s, i), i + 1, vector);
      }
    }
  }

  lemma TimedOutKeeps(s: State)
    requires Inv(s)
    ensures Inv(Did(s.(timeout := true), TimedOut))
  {
    TraceGrows(s.trace, TimedOut);
    hide Outstanding, TagOpen, Lawful, Unreported, BusyCount, ValidDevice, Pow2;
  }

  lemma ExpireKeeps(s: State, vector: nat)
    requires Inv(s)
    ensures Inv(Expire(s, vector)) && NotStuck(Expire(s, vector))
  {
    ExpireFromKeeps(s, 0, vector);
    TimedOutKeeps(ExpireFrom(s, 0, vector));
    ResumeKeeps(Did(ExpireFrom(s, 0, vector).(timeout := true), TimedOut));
  }

  lemma CompleteKeeps(s: State, m: Completion)
    requires Inv(s)
    ensures Inv(Complete(s, m).0)
    ensures !Complete(s, m).1 ==> NotStuck(Complete(s, m).0)
  {
    CompleteFromKeeps(s, 0, m);
    var (s1, unexpected) := CompleteFrom(s, 0, m);
    hide Ledger, ValidDevice, Pow2, CompleteFrom, AnyBusy, AllBusy, Resume;
    if !unexpected { ResumeKeeps(s1); }
  }

  lemma OpenedKeeps(s: State)
    requires Inv(s) && !s.stalled
    ensures Ledger(s.tags, true, s.timeout, s.trace + [Opened])
  {
    TraceGrows(s.trace, Opened);
  }

  lemma SignalsKeep(s: State, c: CqCsr)
    requires Inv(s) && c.cqon == s.Csr().cqon && c.cqen == s.Csr().cqen && c.busy == s.Csr().busy && c.cie == s.Csr().cie
    ensures ValidState(WithCsr(s, c)) && Inv(Signal(WithCsr(s, c)))
  {
    hide Ledger, Pow2;
  }

  lemma RetireKeeps(s: State, fence: bool)
    requires Inv(s) && s.Csr().cqon && (fence ==> !AnyBusy(s.tags) && !s.stalled && !s.timeout)
    ensures Inv(Retire(s, fence)) && (NotStuck(s) ==> NotStuck(Retire(s, fence)))
  {
    NextInRing(s.cq, s.cq.head);
    LedgerGrows(s.tags, s.stalled, s.timeout, s.trace, Retired(s.cq.head, fence));
    hide Ledger, ValidDevice, Pow2, Low;
  }

  lemma InvalKeeps(s: State, m: AtsMessage)
    requires Inv(s) && Ready(s)
    ensures var k := FreeTag(s.tags, 0);
            var s1 := if k < |s.tags| then Send(Did(s, Opened), k, m) else Did(s, Opened).(stalled := true, blocked := m);
            Inv(s1) && (NotStuck(s) ==> NotStuck(s1))
  {
    hide Ledger, ValidDevice, Pow2, FreeTag;
    OpenedKeeps(s);
    FreeTagMeans(s.tags);
    var k := FreeTag(s.tags, 0);
    if k < |s.tags| { SendKeeps(Did(s, Opened).(stalled := true), k, m); }
  }

  lemma FenceKeeps(s: State, f: Fence)
    requires Inv(s) && Ready(s)
    ensures var (s1, stays) := DoFence(s, f);
            Inv(s1) && NotStuck(s1) && s1.Csr().cqon && (!stays ==> !AnyBusy(s1.tags) && !s1.stalled && !s1.timeout)
  {
    var s0 := s.(waiting := false);
    if !AnyBusy(s.tags) { FenceEndsKeeps(s0, f); }
    hide FenceEnds, Ledger, AnyBusy, AllBusy, ValidDevice, Pow2;
  }

  lemma ExecuteKeeps(s: State, c: Command)
    requires Inv(s) && Ready(s)
    ensures Inv(Execute(s, c)) && NotStuck(Execute(s, c))
  {
    hide Ledger, ValidDevice, Pow2, AnyBusy, AllBusy, Signal, Retire, DoFence;
    if IllegalHere(s, c) {
      SignalsKeep(s, s.Csr().(cmd_ill := true));
    } else {
      match c {
        case FenceC(f) =>
          FenceKeeps(s, f);
          if !DoFence(s, f).1 { RetireKeeps(DoFence(s, f).0, true); }
        case Inval(m) =>
          InvalKeeps(s, m);
          var k := FreeTag(s.tags, 0);
          RetireKeeps(if k < |s.tags| then Send(Did(s, Opened), k, m) else Did(s, Opened).(stalled := true, blocked := m), false);
        case Prgr(m) =>
          LedgerGrows(s.tags, s.stalled, s.timeout, s.trace, Responded(m));
          RetireKeeps(Did(s, Responded(m)), false);
        case Local => RetireKeeps(s, false);
      }
    }
  }

  lemma ProcessKeeps(s: State, fetched: Fetched)
    requires Inv(s)
    ensures Inv(Process(s, fetched)) && (NotStuck(s) ==> NotStuck(Process(s, fetched)))
  {
    hide Ledger, ValidDevice, Pow2, AnyBusy, AllBusy, Signal, Execute, Or;
    if Ready(s) && s.cq.head != s.cq.tail {
      SignalsKeep(s, s.Csr().(cqmf := true));
      if fetched.Loaded? { ExecuteKeeps(s, fetched.cmd); }
    }
  }

  lemma ControlKeeps(s: State, w: CqWrite)
    requires Inv(s)
    ensures Inv(WriteCqcsr(s, w)) && (NotStuck(s) ==> NotStuck(WriteCqcsr(s, w)))
  {
    LedgerGrows(s.tags, s.stalled, s.timeout, s.trace, Started);
    hide Ledger, AnyBusy, AllBusy, Pow2;
  }

  // ---------------------------------------------------------------- runs

  /** A step of the IOMMU, a message or a timeout from the host bridge, or a register write. */
  datatype Event =
    | Commands(fetched: Fetched)
    | Completed(m: Completion)
    | Expired(vector: nat)
    | Base(ppn: nat, log2szm1: nat)
    | Tail(index: nat)
    | Control(w: CqWrite)
    | Elsewhere(dev: Device)

  /** Whatever else the IOMMU does leaves `cqcsr` alone. */
  predicate Legal(s: State, e: Event) {
    match e
    case Base(_, lg) => lg < 32
    case Elsewhere(dev) => ValidDevice(dev) && dev.regs.cqcsr == s.Csr()
    case _ => true
  }

  function Step(s: State, e: Event): (s': State)
    requires ValidState(s) && (s.waiting ==> s.Csr().cqon) && Legal(s, e)
    ensures ValidState(s')
  {
    match e
    case Commands(fetched) => Process(s, fetched)
    case Completed(m) => Complete(s, m).0
    case Expired(vector) => Expire(s, vector)
    case Base(ppn, lg) => WriteCqb(s, ppn, lg)
    case Tail(index) => WriteCqt(s, index)
    case Control(w) => WriteCqcsr(s, w)
    case Elsewhere(dev) => s.(dev := dev)
  }

  /** Every step keeps the state of the queue consistent and its trace lawful. */
  lemma StepKeeps(s: State, e: Event)
    requires Inv(s) && Legal(s, e)
    ensures Inv(Step(s, e))
  {
    hide Ledger, ValidDevice, Pow2, Process, Complete, Expire, WriteCqcsr, Low;
    match e {
      case Commands(fetched) => ProcessKeeps(s, fetched);
      case Completed(m) => CompleteKeeps(s, m);
      case Expired(vector) => ExpireKeeps(s, vector);
      case Base(ppn, lg) =>
      case Tail(index) => LowBound(index, s.cq.Lg());
      case Control(w) => ControlKeeps(s, w);
      case Elsewhere(dev) =>
    }
  }

  ghost predicate LegalRun(s: State, es: seq<Event>)
    requires Inv(s)
    decreases |es|
  {
    es == [] || (Legal(s, es[0]) && (StepKeeps(s, es[0]); LegalRun(Step(s, es[0]), es[1..])))
  }

  ghost function Run(s: State, es: seq<Event>): State
    requires Inv(s) && LegalRun(s, es)
    decreases |es|
  {
    if es == [] then s else StepKeeps(s, es[0]); Run(Step(s, es[0]), es[1..])
  }

  lemma {:induction false} RunKeeps(s: State, es: seq<Event>)
    requires Inv(s) && LegalRun(s, es)
    ensures Inv(Run(s, es))
    decreases |es|
  {
    if es != [] {
      StepKeeps(s, es[0]);
      RunKeeps(Step(s, es[0]), es[1..]);
    }
  }

  /** After reset: off, no tag busy, nothing waiting. */
  predicate Fresh(s: State) {
    && ValidState(s) && !AnyBusy(s.tags) && !s.waiting && !s.stalled && !s.timeout && s.trace == []
    && !s.Csr().cqen && !s.Csr().cqon && !s.Csr().busy
  }

  lemma FreshIsConsistent(s: State)
    requires Fresh(s)
    ensures Inv(s) && NotStuck(s)
  {
    NoneBusy(s.tags);
  }

  // ---------------------------------------------------------------- what a fence means

  lemma {:induction false} LawfulPrefix(t: seq<Act>, j: nat)
    requires Lawful(t) && j < |t|
    ensures MayFollow(t[..j], t[j])
    decreases |t|
  {
    var n := |t| - 1;
    if j < n {
      LawfulPrefix(t[..n], j);
      assert t[..n][..j] == t[..j];
    }
  }

  /** A request sent under a tag keeps it open until the tag is closed. */
  lemma {:induction false} SentUntilClosed(t: seq<Act>, i: nat)
    requires i < |t| && t[i].Sent? && !TagOpen(t, t[i].tag)
    ensures exists m :: i < m < |t| && Ends(t[m], t[i].tag)
    decreases |t|
  {
    var n := |t| - 1;
    assert i < n;
    if !Ends(t[n], t[i].tag) {
      SentUntilClosed(t[..n], i);
      var m :| i < m < n && Ends(t[..n][m], t[i].tag);
      assert Ends(t[m], t[i].tag);
    }
  }

  lemma {:induction false} TimedOutUntilReported(t: seq<Act>, i: nat)
    requires i < |t| && t[i].TimedOut? && !Unreported(t)
    ensures exists m :: i < m < |t| && t[m].TimeoutReported?
    decreases |t|
  {
    var n := |t| - 1;
    assert i < n;
    if !t[n].TimeoutReported? {
      TimedOutUntilReported(t[..n], i);
      var m :| i < m < n && t[..n][m].TimeoutReported?;
      assert t[m].TimeoutReported?;
    }
  }

  function Opens(t: seq<Act>): nat { if t == [] then 0 else Opens(t[..|t| - 1]) + if t[|t| - 1].Opened? then 1 else 0 }

  function Closes(t: seq<Act>): nat { if t == [] then 0 else Closes(t[..|t| - 1]) + if t[|t| - 1].Closed? then 1 else 0 }

  lemma {:induction false} OutstandingIs(t: seq<Act>)
    ensures Outstanding(t) == Opens(t) - Closes(t)
  {
    if t != [] { OutstandingIs(t[..|t| - 1]); }
  }

  /** Before a fence synchronizes, stores its data or lets `cqh` past it, every request sent earlier
      was closed by a completion or a timeout, as many as commands were taken up, and every timeout
      was reported to software. */
  lemma FenceWaits(t: seq<Act>, j: nat)
    requires Lawful(t) && j < |t| && FenceAct(t[j])
    ensures Opens(t[..j]) == Closes(t[..j])
    ensures forall i | 0 <= i < j && t[i].Sent? :: exists m :: i < m < j && Ends(t[m], t[i].tag)
    ensures forall i | 0 <= i < j && t[i].TimedOut? :: exists m :: i < m < j && t[m].TimeoutReported?
  {
    LawfulPrefix(t, j);
    OutstandingIs(t[..j]);
    forall i | 0 <= i < j && t[i].Sent? ensures exists m :: i < m < j && Ends(t[m], t[i].tag) {
      SentTagBound(t, i);
      SentUntilClosed(t[..j], i);
      var m :| i < m < j && Ends(t[..j][m], t[i].tag);
      assert Ends(t[m], t[i].tag);
    }
    forall i | 0 <= i < j && t[i].TimedOut? ensures exists m :: i < m < j && t[m].TimeoutReported? {
      TimedOutUntilReported(t[..j], i);
      var m :| i < m < j && t[..j][m].TimeoutReported?;
      assert t[m].TimeoutReported?;
    }
  }

  lemma SentTagBound(t: seq<Act>, i: nat)
    requires Lawful(t) && i < |t| && t[i].Sent?
    ensures t[i].tag < MAX_ITAGS
  {
    LawfulPrefix(t, i);
  }

  /** So in every run of the queue from reset. */
  lemma FencesWaitInEveryRun(s: State, es: seq<Event>, j: nat)
    requires Fresh(s) && (FreshIsConsistent(s); LegalRun(s, es))
    requires (FreshIsConsistent(s); var t := Run(s, es).trace; j < |t| && FenceAct(t[j]))
    ensures (FreshIsConsistent(s); var t := Run(s, es).trace;
            && Opens(t[..j]) == Closes(t[..j])
            && (forall i | 0 <= i < j && t[i].Sent? :: exists m :: i < m < j && Ends(t[m], t[i].tag))
            && (forall i | 0 <= i < j && t[i].TimedOut? :: exists m :: i < m < j && t[m].TimeoutReported?))
  {
    FreshIsConsistent(s);
    RunKeeps(s, es);
    FenceWaits(Run(s, es).trace, j);
  }

  /** A fence that finds a timeout unreported takes no effect: it sets `cmd_to` and stays at the head. */
  lemma TimeoutHoldsFence(s: State, f: Fence)
    requires Inv(s) && Ready(s) && !AnyBusy(s.tags) && s.timeout && !IllegalHere(s, FenceC(f))
    ensures var s' := Execute(s, FenceC(f));
            && s'.cq == s.cq && s'.Csr().cmd_to && !s'.timeout && !s'.waiting
            && s'.trace == s.trace + [TimeoutReported] && !Ready(s')
  {
    InterruptKeepsCsr(WithCsr(s, s.Csr().(cmd_to := true)).dev, CommandUnit);
    hide GenerateInterrupt, Pow2, ValidDevice;
  }

  /** The fence gave up its wait without effect: it is still at the head, and software is told of the
      timeout. */
  predicate HeldBack(s: State, s': State) {
    && s'.cq == s.cq && s'.Csr().cmd_to && !s'.waiting && !s'.timeout
    && NoFenceSince(s.trace, s'.trace) && s'.trace[|s'.trace| - 1].TimeoutReported?
  }

  predicate NoFenceSince(t: seq<Act>, u: seq<Act>) {
    |t| < |u| && t == u[..|t|] && forall k | |t| <= k < |u| :: !FenceAct(u[k])
  }

  lemma TimeoutHoldsWaiting(s: State)
    requires Inv(s) && s.waiting && !AnyBusy(s.tags) && s.timeout
    ensures var s' := Resume(s);
            && s'.cq == s.cq && s'.Csr().cmd_to && !s'.timeout && !s'.waiting && s'.trace == s.trace + [TimeoutReported]
  {
    InterruptKeepsCsr(WithCsr(s, s.Csr().(cmd_to := true)).dev, CommandUnit);
    hide GenerateInterrupt, Pow2, ValidDevice, FreeTag;
  }

  /** Nothing but requests that end, and timeouts, come between `s` and `s1`. */
  predicate OnlyEnded(s: State, s1: State) {
    && s1.cq == s.cq && s1.waiting == s.waiting
    && |s.trace| <= |s1.trace| && s.trace == s1.trace[..|s.trace|]
    && forall k | |s.trace| <= k < |s1.trace| :: !FenceAct(s1.trace[k])
  }

  lemma EndsAdd(s: State, s1: State, s2: State)
    requires OnlyEnded(s, s1) && OnlyEnded(s1, s2)
    ensures OnlyEnded(s, s2)
  {
    assert s2.trace[..|s.trace|] == s2.trace[..|s1.trace|][..|s.trace|];
    forall k | |s.trace| <= k < |s2.trace| ensures !FenceAct(s2.trace[k]) {
      if k < |s1.trace| { assert s2.trace[k] == s1.trace[k]; }
    }
  }

  lemma SameEnds(s: State)
    ensures OnlyEnded(s, s)
  {
  }

  lemma TagEnds(s: State, tags: seq<Tag>, a: Act)
    requires !FenceAct(a)
    ensures OnlyEnded(s, s.(tags := tags)) && OnlyEnded(s, Did(s.(tags := tags), a))
  {
  }

  lemma {:induction false} ExpiryOnlyEnds(s: State, i: nat, vector: nat)
    requires ValidState(s) && i <= |s.tags|
    ensures OnlyEnded(s, ExpireFrom(s, i, vector))
    decreases |s.tags| - i
  {
    hide ValidDevice, Pow2, BitSet, OnlyEnded;
    SameEnds(s);
    if i < |s.tags| {
      if !BitSet(vector, i) {
        ExpiryOnlyEnds(s, i + 1, vector);
      } else {
        var tags := s.tags[i := s.tags[i].(busy := false)];
        var s1 := Lapsed(s, i);
        TagEnds(s, tags, Closed(i, true));
        ExpiryOnlyEnds(s1, i + 1, vector);
        EndsAdd(s, s1, ExpireFrom(s1, i + 1, vector));
      }
    }
  }

  lemma {:induction false} CompletionOnlyEnds(s: State, i: nat, m: Completion)
    requires ValidState(s) && i <= |s.tags|
    ensures OnlyEnded(s, CompleteFrom(s, i, m).0) && CompleteFrom(s, i, m).0.timeout == s.timeout
    decreases |s.tags| - i
  {
    hide ValidDevice, Pow2, BitSet, Accepts, Counted, OnlyEnded;
    SameEnds(s);
    if i < |s.tags| {
      if !BitSet(m.vector, i) {
        CompletionOnlyEnds(s, i + 1, m);
      } else if Accepts(s.tags[i], m) {
        var tags := s.tags[i := Counted(s.tags[i], m)];
        var s1 := Credited(s, i, m);
        TagEnds(s, tags, Heard(i, m));
        TagEnds(Did(s.(tags := tags), Heard(i, m)), tags, Closed(i, false));
        EndsAdd(s, Did(s.(tags := tags), Heard(i, m)), Did(Did(s.(tags := tags), Heard(i, m)), Closed(i, false)));
        CompletionOnlyEnds(s1, i + 1, m);
        EndsAdd(s, s1, CompleteFrom(s1, i + 1, m).0);
      }
    }
  }

  /** A resumed fence that meets a timeout is held back; one that still has a busy tag waits on. */
  lemma ResumeHolds(s: State, s1: State)
    requires Inv(s1) && s1.waiting && s1.timeout && OnlyEnded(s, s1)
    ensures if AnyBusy(s1.tags) then Resume(s1) == s1 else HeldBack(s, Resume(s1))
  {
    if !AnyBusy(s1.tags) { TimeoutHoldsWaiting(s1); }
    hide Inv, Resume, AnyBusy;
  }

  /** The step takes up a fence at the head. */
  predicate TakesFence(s: State, e: Event) {
    && e.Commands? && e.fetched.Loaded? && e.fetched.cmd.FenceC? && !IllegalHere(s, e.fetched.cmd)
    && Ready(s) && s.cq.head != s.cq.tail && s.cq.SlotAddr(s.cq.head, CQ_ENTRY_SZ) < Pow2(s.dev.regs.pas)
  }

  /** A fence waits, or is taken up, while a timeout is unreported; or its wait meets the timer. */
  predicate MeetsTimeout(s: State, e: Event) {
    if s.timeout then s.waiting || TakesFence(s, e) else s.waiting && e.Expired?
  }

  lemma TimeoutHoldsFetched(s: State, e: Event)
    requires Inv(s) && s.timeout && TakesFence(s, e)
    ensures !Step(s, e).waiting ==> HeldBack(s, Step(s, e))
  {
    hide Ledger, ValidDevice, Pow2, Low, Or, AnyBusy, HeldBack, Execute;
    if AnyBusy(s.tags) { FetchedWaits(s, e.fetched.cmd.fence); }
    else { TimeoutHoldsFence(s, e.fetched.cmd.fence); ReportedIsHeldBack(s, Execute(s, e.fetched.cmd)); }
  }

  lemma FetchedWaits(s: State, f: Fence)
    requires Inv(s) && Ready(s) && AnyBusy(s.tags) && !IllegalHere(s, FenceC(f))
    ensures Execute(s, FenceC(f)).waiting
  {
    hide Ledger, ValidDevice, Pow2, AnyBusy;
  }

  lemma ReportedIsHeldBack(s: State, s': State)
    requires s'.cq == s.cq && s'.Csr().cmd_to && !s'.timeout && !s'.waiting && s'.trace == s.trace + [TimeoutReported]
    ensures HeldBack(s, s')
  {
  }

  /** Whatever lets a fence go on while a timeout is unreported, its own turn at the head, a completion or
      the timer itself, holds the fence back. */
  lemma TimeoutHoldsStep(s: State, e: Event)
    requires Inv(s) && Legal(s, e) && MeetsTimeout(s, e)
    ensures !Step(s, e).waiting ==> HeldBack(s, Step(s, e))
  {
    hide Ledger, ValidDevice, Pow2, Resume, HeldBack, CompleteFrom, ExpireFrom, AnyBusy;
    match e {
      case Completed(m) =>
        CompletionOnlyEnds(s, 0, m);
        CompleteFromKeeps(s, 0, m);
        if !CompleteFrom(s, 0, m).1 { ResumeHolds(s, CompleteFrom(s, 0, m).0); }
      case Expired(vector) =>
        var s1 := ExpireFrom(s, 0, vector);
        ExpiryOnlyEnds(s, 0, vector);
        ExpireFromKeeps(s, 0, vector);
        TimedOutKeeps(s1);
        ResumeHolds(s, Did(s1.(timeout := true), TimedOut));
      case Commands(_) => if !s.waiting { TimeoutHoldsFetched(s, e); }
      case _ =>
    }
  }

  /** So in every run from reset. */
  lemma TimeoutHoldsInEveryRun(s: State, es: seq<Event>, e: Event)
    requires Fresh(s) && (FreshIsConsistent(s); LegalRun(s, es))
    requires (FreshIsConsistent(s); RunKeeps(s, es); var u := Run(s, es); Legal(u, e) && MeetsTimeout(u, e))
    ensures (FreshIsConsistent(s); RunKeeps(s, es); var u := Run(s, es); !Step(u, e).waiting ==> HeldBack(u, Step(u, e)))
  {
    FreshIsConsistent(s);
    RunKeeps(s, es);
    TimeoutHoldsStep(Run(s, es), e);
  }
}
