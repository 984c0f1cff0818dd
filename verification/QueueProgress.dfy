/** When the command queue can be stuck, in which order commands retire, and that memory and interrupts
    agree with what the queue did. */
module QueueProgress {
  import opened Bits
  import opened Interrupts
  import opened RingMemory
  import opened CommandQueue
  import opened FenceOrder

  // ---------------------------------------------------------------- never stuck, with one exception

  /** A completion vector that is accepted and closes tag 0, is then rejected at tag 1, and so returns
      before the queue is looked at, although tag 0 was what the queue waited for. */
  predicate Torn(s: State, m: Completion)
    requires ValidState(s)
  {
    && BitSet(m.vector, 0) && Accepts(s.tags[0], m) && (s.tags[0].rsp + 1) % 8 == m.cc
    && BitSet(m.vector, 1) && !Accepts(s.tags[1], m)
    && (s.stalled || (s.waiting && !s.tags[1].busy))
  }

  lemma TornIsStuckIff(s: State, m: Completion)
    requires Inv(s) && NotStuck(s)
    ensures NotStuck(Complete(s, m).0) <==> !Torn(s, m)
  {
    CompleteKeeps(s, m);
    hide Ledger, ValidDevice, Pow2, BitSet, CompleteFrom, Resume, NotStuck, Torn;
    var (s1, unexpected) := CompleteFrom(s, 0, m);
    if unexpected { RejectedIsStuck(s, m); } else if Torn(s, m) { TornIsRejected(s, m); }
  }

  lemma RejectedIsStuck(s: State, m: Completion)
    requires ValidState(s) && NotStuck(s) && CompleteFrom(s, 0, m).1
    ensures NotStuck(CompleteFrom(s, 0, m).0) <==> !Torn(s, m)
  {
    RejectedSecond(s, m);
    hide ValidDevice, Pow2, BitSet, CompleteFrom;
  }

  lemma TornIsRejected(s: State, m: Completion)
    requires ValidState(s) && Torn(s, m)
    ensures CompleteFrom(s, 0, m).1
  {
    hide ValidDevice, Pow2, BitSet;
    assert CompleteFrom(Credited(s, 0, m), 1, m).1;
  }

  /** A rejected vector leaves the tags as they were, but for tag 0 if that was accepted first. */
  lemma RejectedSecond(s: State, m: Completion)
    requires ValidState(s) && CompleteFrom(s, 0, m).1
    ensures var s' := CompleteFrom(s, 0, m).0;
            var first := BitSet(m.vector, 0) && Accepts(s.tags[0], m);
            && s'.tags == (if first then s.tags[0 := Counted(s.tags[0], m)] else s.tags)
            && s'.waiting == s.waiting && s'.stalled == s.stalled
            && (first ==> BitSet(m.vector, 1) && !Accepts(s.tags[1], m))
  {
    hide ValidDevice, Pow2, BitSet;
    if BitSet(m.vector, 0) && Accepts(s.tags[0], m) {
      RejectedAt1(Credited(s, 0, m), m);
    } else if !BitSet(m.vector, 0) {
      RejectedAt1(s, m);
    }
  }

  lemma RejectedAt1(s: State, m: Completion)
    requires ValidState(s)
    ensures var (s', unexpected) := CompleteFrom(s, 1, m);
            unexpected ==> s' == s && BitSet(m.vector, 1) && !Accepts(s.tags[1], m)
  {
    hide ValidDevice, Pow2, BitSet;
    assert CompleteFrom(s, 2, m) == (s, false);
    if BitSet(m.vector, 1) && Accepts(s.tags[1], m) {
      assert forall s2 | ValidState(s2) :: !CompleteFrom(s2, 2, m).1;
    }
  }

  /** In every state a waiting fence has a busy tag to wait for, and a blocked request finds all tags
      busy, so that the message that frees the last needed tag also resumes the queue; the one step
      that can break this is a torn completion. */
  lemma StepStuckIff(s: State, e: Event)
    requires Inv(s) && NotStuck(s) && Legal(s, e)
    ensures NotStuck(Step(s, e)) <==> !(e.Completed? && Torn(s, e.m))
  {
    hide Ledger, ValidDevice, Pow2, Process, Complete, Expire, WriteCqcsr, Torn, AnyBusy, AllBusy, Low;
    match e {
      case Commands(fetched) => ProcessKeeps(s, fetched);
      case Completed(m) => TornIsStuckIff(s, m);
      case Expired(vector) => ExpireKeeps(s, vector);
      case Control(w) => ControlKeeps(s, w);
      case _ =>
    }
  }

  ghost predicate NeverTorn(s: State, es: seq<Event>)
    requires Inv(s) && LegalRun(s, es)
    decreases |es|
  {
    es == [] || (!(es[0].Completed? && Torn(s, es[0].m)) && (StepKeeps(s, es[0]); NeverTorn(Step(s, es[0]), es[1..])))
  }

  lemma {:induction false} RunNotStuck(s: State, es: seq<Event>)
    requires Inv(s) && LegalRun(s, es) && NotStuck(s) && NeverTorn(s, es)
    ensures NotStuck(Run(s, es))
    decreases |es|
  {
    if es != [] {
      StepKeeps(s, es[0]);
      StepStuckIff(s, es[0]);
      RunNotStuck(Step(s, es[0]), es[1..]);
    }
  }

  lemma ExpireFromFrees(s: State, i: nat, vector: nat)
    requires ValidState(s) && i <= MAX_ITAGS
    ensures forall j | 0 <= j < MAX_ITAGS ::
              ExpireFrom(s, i, vector).tags[j].busy == (s.tags[j].busy && !(j >= i && BitSet(vector, j)))
    ensures ExpireFrom(s, i, vector).stalled == s.stalled
    decreases MAX_ITAGS - i
  {
    hide ValidDevice, Pow2, BitSet;
    if i < MAX_ITAGS {
      if !BitSet(vector, i) { ExpireFromFrees(s, i + 1, vector); }
      else { ExpireFromFrees(Lapsed(s, i), i + 1, vector); }
    }
  }

  /** From any state, even a stuck one, a timeout of all busy tags resolves a waiting fence and sends
      a blocked request. */
  lemma TimeoutResumes(s: State, vector: nat)
    requires Inv(s) && forall i | 0 <= i < MAX_ITAGS && s.tags[i].busy :: BitSet(vector, i)
    ensures !Expire(s, vector).waiting && !Expire(s, vector).stalled
  {
    ExpireFromKeeps(s, 0, vector);
    ExpireFromFrees(s, 0, vector);
    var s2 := Did(ExpireFrom(s, 0, vector).(timeout := true), TimedOut);
    ExpireKeeps(s, vector);
    hide Ledger, ValidDevice, Pow2, BitSet, FenceEnds;
    assert !AnyBusy(s2.tags);
    assert FreeTag(s2.tags, 0) == 0;
  }

  /** A fence left waiting with no busy tag: no completion that names a tag helps it any more. */
  lemma StuckStays(s: State, m: Completion)
    requires ValidState(s) && (s.waiting ==> s.Csr().cqon) && !AnyBusy(s.tags) && (BitSet(m.vector, 0) || BitSet(m.vector, 1))
    ensures Complete(s, m) == (s, true)
  {
    hide ValidDevice, Pow2, BitSet;
    assert !s.tags[0].busy && !s.tags[1].busy;
    if !BitSet(m.vector, 0) { assert CompleteFrom(s, 1, m) == (s, true); }
  }

  /** Such a run from reset: the queue is turned on and given an ATS.INVAL and a fence, and the device
      completes both tags although only tag 0 is in use. */
  lemma TornRun(s: State, m: AtsMessage, f: Fence, vector: nat)
    requires Fresh(s) && s.cq.ppn == 0 && s.cq.log2szm1 == 1 && s.dev.regs.pas >= 12 && !f.wsi
    requires BitSet(vector, 0) && BitSet(vector, 1)
    ensures var s' := Process(Process(TwoQueued(s), Loaded(Inval(m))), Loaded(FenceC(f)));
            && Inv(s') && NotStuck(s') && (s'.waiting ==> s'.Csr().cqon)
            && !NotStuck(Complete(s', Completion(vector, 1, m.dsv, m.dseg, m.rid)).0)
  {
    hide Process, Ledger, ValidDevice, Pow2, BitSet, TwoQueued, Fresh, Complete, AnyBusy, AllBusy;
    FreshIsConsistent(s);
    StartsReady(s);
    var s2 := TwoQueued(s);
    NotBusyAtStart(s);
    InvalTakesTag0(s2, m);
    var s3 := Process(s2, Loaded(Inval(m)));
    ProcessKeeps(s2, Loaded(Inval(m)));
    FenceFindsTag0(s3, f);
    ProcessKeeps(s3, Loaded(FenceC(f)));
    TornIsStuckIff(Process(s3, Loaded(FenceC(f))), Completion(vector, 1, m.dsv, m.dseg, m.rid));
  }

  lemma NotBusyAtStart(s: State)
    requires Fresh(s)
    ensures !AnyBusy(s.tags) && !s.tags[1].busy
  {
  }

  /** The queue turned on, and two commands put in it. */
  function TwoQueued(s: State): State
    requires ValidState(s)
  {
    WriteCqt(WriteCqcsr(s, CqWrite(true, false, false, false, false, false)), 2)
  }

  lemma StartsReady(s: State)
    requires Fresh(s) && s.cq.log2szm1 == 1
    ensures var s2 := TwoQueued(s);
            && Inv(s2) && NotStuck(s2) && Ready(s2) && s2.cq == s.cq.(head := 0, tail := 2) && s2.tags == s.tags
            && s2.dev.regs.pas == s.dev.regs.pas
  {
    FreshIsConsistent(s);
    ControlKeeps(s, CqWrite(true, false, false, false, false, false));
    LowTwo(s.cq);
    hide Ledger, ValidDevice, Pow2, Low, AnyBusy, AllBusy;
  }

  lemma LowTwo(r: Ring)
    requires r.log2szm1 == 1
    ensures Low(2, r.Lg()) == 2 < r.Entries()
  {
  }

  lemma InvalTakesTag0(s: State, m: AtsMessage)
    requires Inv(s) && Ready(s) && !AnyBusy(s.tags) && s.cq.ppn == 0 && s.cq.log2szm1 == 1 && s.cq.head == 0 && s.cq.tail == 2
    requires s.dev.regs.pas >= 12
    ensures var s' := Process(s, Loaded(Inval(m)));
            && s'.tags == s.tags[0 := Tag(true, m.dsv, m.dseg, m.rid, 0)] && s'.cq == s.cq.(head := 1)
            && s'.dev == s.dev && Ready(s')
  {
    assert FreeTag(s.tags, 0) == 0;
    assert s.cq.SlotAddr(0, CQ_ENTRY_SZ) == 0;
    assert s.cq.Next(0) == 1 by { NextInRing(s.cq, 0); }
    hide Or, Pow2, Low, ValidDevice;
  }

  lemma FenceFindsTag0(s: State, f: Fence)
    requires Inv(s) && Ready(s) && s.tags[0].busy && s.cq.ppn == 0 && s.cq.log2szm1 == 1 && s.cq.head == 1 && s.cq.tail == 2
    requires s.dev.regs.pas >= 12 && !f.wsi
    ensures var s' := Process(s, Loaded(FenceC(f))); s'.tags == s.tags && s'.waiting && !s'.stalled
  {
    assert s.cq.SlotAddr(1, CQ_ENTRY_SZ) == 16;
    Pow2Mono(5, s.dev.regs.pas);
    assert Pow2(5) == 4 * Pow2(3) && Pow2(3) == 2 * Pow2(2);
    hide Or, Pow2, Low, ValidDevice;
  }

  // ---------------------------------------------------------------- commands retire in order

  /** Commands left behind since the queue was last started. */
  function RetiredSince(t: seq<Act>): nat {
    if t == [] then 0
    else
      var last := t[|t| - 1];
      if last.Started? then 0 else RetiredSince(t[..|t| - 1]) + if last.Retired? then 1 else 0
  }

  lemma SinceGrows(t: seq<Act>, a: Act)
    ensures RetiredSince(t + [a]) == if a.Started? then 0 else RetiredSince(t) + if a.Retired? then 1 else 0
  {
    assert (t + [a])[..|t|] == t;
  }

  /** The head is the slot of the first command not retired, and a waiting fence is still queued. */
  predicate InOrder(s: State) {
    && (s.Csr().cqon ==> s.cq.head == Low(RetiredSince(s.trace), s.cq.Lg()))
    && (s.waiting ==> s.cq.head != s.cq.tail)
  }

  /** Nothing retires, or the command at the head does. */
  predicate RetiresUpToOne(s: State, s': State) {
    || (s'.cq == s.cq && RetiredSince(s'.trace) == RetiredSince(s.trace))
    || (s.cq.head != s.cq.tail && s'.cq == s.cq.(head := s.cq.Next(s.cq.head)) && RetiredSince(s'.trace) == RetiredSince(s.trace) + 1)
  }

  predicate SameRetired(s: State, s': State) {
    s'.cq == s.cq && RetiredSince(s'.trace) == RetiredSince(s.trace)
  }

  lemma FenceRetiresNone(s: State, f: Fence)
    requires ValidState(s)
    ensures SameRetired(s, DoFence(s, f).0)
  {
    var s0 := s.(waiting := false);
    SinceGrows(s.trace, Synced(f.pr, f.pw));
    SinceGrows(FenceSyncs(s0, f).trace, FenceStored(f.addr, f.data));
    SinceGrows(s.trace, TimeoutReported);
    hide Raised, MemoryFault, FenceInterrupts, ValidDevice, Pow2, RetiredSince, AnyBusy;
  }

  lemma PendingFenceRetires(s: State)
    requires ValidState(s) && s.Csr().cqon && s.cq.head != s.cq.tail
    ensures RetiresUpToOne(s, PendingFence(s))
  {
    hide DoFence, RetiredSince, ValidDevice, Pow2, Low;
    FenceRetiresNone(s, s.fence);
    var s1 := DoFence(s, s.fence).0;
    SinceGrows(s1.trace, Retired(s1.cq.head, true));
  }

  lemma UnblockRetiresNone(s: State)
    requires ValidState(s)
    ensures SameRetired(s, Unblock(s))
  {
    SinceGrows(s.trace, Sent(FreeTag(s.tags, 0), s.blocked));
    hide RetiredSince, ValidDevice, Pow2;
  }

  lemma ResumeRetires(s: State)
    requires Inv(s) && (s.waiting ==> s.cq.head != s.cq.tail)
    ensures RetiresUpToOne(s, Resume(s)) && (Resume(s).waiting ==> Resume(s).cq == s.cq)
  {
    hide Ledger, RetiredSince, ValidDevice, Pow2, Low, AnyBusy, AllBusy, PendingFence, Unblock;
    if s.waiting && !AnyBusy(s.tags) {
      PendingFenceKeeps(s);
      PendingFenceRetires(s);
      UnblockRetiresNone(PendingFence(s));
      UnblockKeeps(PendingFence(s));
    } else {
      UnblockRetiresNone(s);
      if !s.waiting { UnblockKeeps(s); }
    }
  }

  lemma CompleteFromRetiresNone(s: State, i: nat, m: Completion)
    requires ValidState(s) && i <= MAX_ITAGS
    ensures SameRetired(s, CompleteFrom(s, i, m).0)
    decreases MAX_ITAGS - i
  {
    hide ValidDevice, Pow2, BitSet, RetiredSince;
    if i < MAX_ITAGS {
      if !BitSet(m.vector, i) { CompleteFromRetiresNone(s, i + 1, m); }
      else if Accepts(s.tags[i], m) {
        SinceGrows(s.trace, Heard(i, m));
        SinceGrows(s.trace + [Heard(i, m)], Closed(i, false));
        CompleteFromRetiresNone(Credited(s, i, m), i + 1, m);
      }
    }
  }

  lemma ExpireFromRetiresNone(s: State, i: nat, vector: nat)
    requires ValidState(s) && i <= MAX_ITAGS
    ensures SameRetired(s, ExpireFrom(s, i, vector))
    decreases MAX_ITAGS - i
  {
    hide ValidDevice, Pow2, BitSet, RetiredSince;
    if i < MAX_ITAGS {
      if !BitSet(vector, i) { ExpireFromRetiresNone(s, i + 1, vector); }
      else {
        SinceGrows(s.trace, Closed(i, true));
        ExpireFromRetiresNone(Lapsed(s, i), i + 1, vector);
      }
    }
  }

  lemma RetireRetires(s: State, s1: State, fence: bool)
    requires SameRetired(s, s1) && s.cq.head != s.cq.tail
    ensures RetiresUpToOne(s, Retire(s1, fence))
  {
    SinceGrows(s1.trace, Retired(s1.cq.head, fence));
  }

  lemma ExecuteRetires(s: State, c: Command)
    requires Inv(s) && Ready(s) && s.cq.head != s.cq.tail
    ensures RetiresUpToOne(s, Execute(s, c))
    ensures Execute(s, c).waiting ==> Execute(s, c).cq == s.cq
  {
    hide DoFence, Signal, Ledger, RetiredSince, ValidDevice, Pow2, Low, AnyBusy, AllBusy, Retire;
    if !IllegalHere(s, c) {
      match c {
        case FenceC(f) =>
          FenceRetiresNone(s, f);
          FenceKeeps(s, f);
          RetireRetires(s, DoFence(s, f).0, true);
          FenceWaitsOrRetires(s, f);
        case Inval(m) =>
          var k := FreeTag(s.tags, 0);
          var s1 := if k < |s.tags| then Send(Did(s, Opened), k, m) else Did(s, Opened).(stalled := true, blocked := m);
          SinceGrows(s.trace, Opened);
          SinceGrows(s.trace + [Opened], Sent(k, m));
          RetireRetires(s, s1, false);
          RetireKeepsWaiting(s1, false);
        case Prgr(m) =>
          SinceGrows(s.trace, Responded(m));
          RetireRetires(s, Did(s, Responded(m)), false);
          RetireKeepsWaiting(Did(s, Responded(m)), false);
        case Local =>
          RetireRetires(s, s, false);
          RetireKeepsWaiting(s, false);
      }
    }
  }

  lemma RetireKeepsWaiting(s: State, fence: bool)
    ensures Retire(s, fence).waiting == s.waiting
  {
  }

  lemma FenceWaitsOrRetires(s: State, f: Fence)
    requires ValidState(s)
    ensures var (s1, stays) := DoFence(s, f); (s1.waiting ==> stays) && Retire(s1, true).waiting == s1.waiting
  {
    hide FenceEnds, Pow2, ValidDevice;
  }

  lemma ProcessRetires(s: State, fetched: Fetched)
    requires Inv(s)
    ensures RetiresUpToOne(s, Process(s, fetched))
    ensures !s.waiting && Process(s, fetched).waiting ==> s.cq.head != s.cq.tail && Process(s, fetched).cq == s.cq
  {
    hide Execute, Signal, Ledger, RetiredSince, ValidDevice, Pow2, Low, Or, AnyBusy;
    if fetched.Loaded? && Ready(s) && s.cq.head != s.cq.tail { ExecuteRetires(s, fetched.cmd); }
  }

  /** A step of the queue leaves the head or retires the one command at the head. */
  lemma StepRetires(s: State, e: Event)
    requires Inv(s) && Legal(s, e) && InOrder(s) && (e.Commands? || e.Completed? || e.Expired?)
    ensures RetiresUpToOne(s, Step(s, e))
    ensures Step(s, e).waiting ==> Step(s, e).cq == s.cq && s.cq.head != s.cq.tail
  {
    match e {
      case Commands(fetched) =>
        hide Process, Ledger, RetiredSince, ValidDevice, Pow2, Low;
        ProcessRetires(s, fetched);
        if s.waiting { assert Process(s, fetched) == s by { WaitingProcessIdles(s, fetched); } }
      case Completed(m) =>
        hide Ledger, RetiredSince, ValidDevice, Pow2, Low, Resume, CompleteFrom;
        CompleteFromKeeps(s, 0, m);
        CompleteFromRetiresNone(s, 0, m);
        ResumeIfAccepted(s, m);
      case Expired(vector) =>
        hide Ledger, RetiredSince, ValidDevice, Pow2, Low, Resume, ExpireFrom;
        var s1 := ExpireFrom(s, 0, vector);
        var s2 := Did(s1.(timeout := true), TimedOut);
        ExpireFromKeeps(s, 0, vector);
        ExpireFromRetiresNone(s, 0, vector);
        SinceGrows(s1.trace, TimedOut);
        TimedOutKeeps(s1);
        ResumeRetires(s2);
    }
  }

  lemma WaitingProcessIdles(s: State, fetched: Fetched)
    requires ValidState(s) && s.waiting
    ensures Process(s, fetched) == s
  {
  }

  lemma ResumeIfAccepted(s: State, m: Completion)
    requires Inv(s) && InOrder(s) && Inv(CompleteFrom(s, 0, m).0) && SameRetired(s, CompleteFrom(s, 0, m).0)
    ensures var s1 := CompleteFrom(s, 0, m).0; RetiresUpToOne(s1, Resume(s1)) && (Resume(s1).waiting ==> Resume(s1).cq == s1.cq)
  {
    hide Ledger, RetiredSince, ValidDevice, Pow2, Low, Resume, CompleteFrom;
    ResumeRetires(CompleteFrom(s, 0, m).0);
  }

  lemma {:induction false} LowSuccessors(x: nat, y: nat, k: nat)
    requires Low(x, k) == Low(y, k)
    ensures Low(x + 1, k) == Low(y + 1, k)
  {
    if k > 0 {
      assert x % 2 == y % 2 && Low(x / 2, k - 1) == Low(y / 2, k - 1);
      if x % 2 == 1 { LowSuccessors(x / 2, y / 2, k - 1); }
      assert (x + 1) / 2 == x / 2 + x % 2 && (y + 1) / 2 == y / 2 + y % 2;
    }
  }

  /** Retiring the command at the head leaves one fewer in the queue. */
  lemma OneFewer(r: Ring)
    requires ValidRing(r, true) && r.head != r.tail
    ensures ValidRing(r.(head := r.Next(r.head)), true) && Used(r.(head := r.Next(r.head))) == Used(r) - 1
  {
    NextInRing(r, r.head);
  }

  /** Software takes back no command that it has queued. */
  predicate OnlyAdvances(s: State, e: Event)
    requires Inv(s) && Legal(s, e)
  {
    e.Tail? && s.Csr().cqon ==> Used(s.cq) <= Used(WriteCqt(s, e.index).cq)
  }

  /** Each step keeps `cqh` at the number of commands retired since the start, modulo the size of the
      queue; the commands retired are those queued, in order, and each leaves the queue one shorter. */
  lemma StepInOrder(s: State, e: Event)
    requires Inv(s) && Legal(s, e) && InOrder(s) && OnlyAdvances(s, e)
    ensures InOrder(Step(s, e))
    ensures (e.Commands? || e.Completed? || e.Expired?) && Step(s, e).cq != s.cq && Step(s, e).Csr().cqon ==>
              ValidRing(Step(s, e).cq, true) && Used(Step(s, e).cq) == Used(s.cq) - 1
  {
    StepKeeps(s, e);
    if e.Commands? || e.Completed? || e.Expired? {
      QueueStepInOrder(s, e);
    } else {
      hide Ledger, RetiredSince, ValidDevice, Pow2, Low;
      SinceGrows(s.trace, Started);
      LowOfZero(s.cq.Lg());
    }
  }

  lemma QueueStepInOrder(s: State, e: Event)
    requires Inv(s) && Legal(s, e) && InOrder(s) && Inv(Step(s, e))
    requires e.Commands? || e.Completed? || e.Expired?
    ensures InOrder(Step(s, e))
    ensures Step(s, e).cq != s.cq && Step(s, e).Csr().cqon ==>
              ValidRing(Step(s, e).cq, true) && Used(Step(s, e).cq) == Used(s.cq) - 1
  {
    StepRetires(s, e);
    StepStaysOn(s, e);
    hide Ledger, RetiredSince, ValidDevice, Pow2, Low, Step, RetiresUpToOne;
    if Step(s, e).Csr().cqon { HeadFollows(s, Step(s, e)); }
  }

  lemma HeadFollows(s: State, s': State)
    requires ValidRing(s.cq, true) && s.Csr().cqon && InOrder(s) && RetiresUpToOne(s, s')
    requires s'.waiting ==> s'.cq == s.cq && s.cq.head != s.cq.tail
    ensures InOrder(s')
    ensures s'.cq != s.cq ==> ValidRing(s'.cq, true) && Used(s'.cq) == Used(s.cq) - 1
  {
    LowLow(RetiredSince(s.trace), s.cq.Lg(), s.cq.Lg());
    LowSuccessors(s.cq.head, RetiredSince(s.trace), s.cq.Lg());
    hide RetiredSince, Pow2, Low;
    if s.cq.head != s.cq.tail { OneFewer(s.cq); }
  }

  lemma StepStaysOn(s: State, e: Event)
    requires Inv(s) && Legal(s, e) && (e.Commands? || e.Completed? || e.Expired?)
    ensures Step(s, e).Csr().cqon ==> s.Csr().cqon
  {
    hide Ledger, ValidDevice, Pow2, Low, FenceEnds, Signal, BitSet, AnyBusy;
  }

  ghost predicate AlwaysAdvances(s: State, es: seq<Event>)
    requires Inv(s) && LegalRun(s, es)
    decreases |es|
  {
    es == [] || (OnlyAdvances(s, es[0]) && (StepKeeps(s, es[0]); AlwaysAdvances(Step(s, es[0]), es[1..])))
  }

  lemma {:induction false} RunInOrder(s: State, es: seq<Event>)
    requires Inv(s) && LegalRun(s, es) && InOrder(s) && AlwaysAdvances(s, es)
    ensures InOrder(Run(s, es))
    decreases |es|
  {
    if es != [] {
      StepKeeps(s, es[0]);
      StepInOrder(s, es[0]);
      RunInOrder(Step(s, es[0]), es[1..]);
    }
  }
}
