/** Whose responses end an invalidation request: over every run a request that was sent to a device ends with
    the number of responses it asks for, all of them from that device, or with a timeout. */
module Completions {
  import opened Bits
  import opened Common
  import opened Interrupts
  import opened CommandQueue
  import opened FenceOrder

  // ---------------------------------------------------------------- what a trace says of a tag

  /** The request last sent under tag `i`. */
  function LastSent(t: seq<Act>, i: nat): Option<AtsMessage> {
    if t == [] then None
    else
      var last := t[|t| - 1];
      if last.Sent? && last.tag == i then Some(last.msg) else LastSent(t[..|t| - 1], i)
  }

  /** The responses heard under tag `i` since then. */
  function HeardSince(t: seq<Act>, i: nat): seq<Completion> {
    if t == [] then []
    else
      var last := t[|t| - 1];
      if last.Sent? && last.tag == i then []
      else HeardSince(t[..|t| - 1], i) + if last.Heard? && last.tag == i then [last.from] else []
  }

  /** The response is from the device that the request went to; the segment counts if the request names one. */
  predicate FromDevice(m: Completion, msg: AtsMessage) {
    m.rid == msg.rid && (msg.dsv ==> m.dsv && m.dseg == msg.dseg)
  }

  /** A response is heard only under a tag in use and from the device of its request. A request that is not given
      up ends just as a response comes in, and that has heard as many as the response says, counted in three bits. */
  predicate Credible(t: seq<Act>) {
    t == [] ||
    var (u, last) := (t[..|t| - 1], t[|t| - 1]);
    && Credible(u)
    && (last.Heard? ==> TagOpen(u, last.tag) && LastSent(u, last.tag).Some? && FromDevice(last.from, LastSent(u, last.tag).value))
    && (last.Closed? && !last.late ==>
          && u != [] && u[|u| - 1].Heard? && u[|u| - 1].tag == last.tag
          && |HeardSince(u, last.tag)| % 8 == u[|u| - 1].from.cc)
  }

  lemma TagGrows(t: seq<Act>, a: Act, i: nat)
    ensures LastSent(t + [a], i) == if a.Sent? && a.tag == i then Some(a.msg) else LastSent(t, i)
    ensures HeardSince(t + [a], i) ==
              if a.Sent? && a.tag == i then [] else HeardSince(t, i) + if a.Heard? && a.tag == i then [a.from] else []
    ensures TagOpen(t + [a], i) == if a.Sent? && a.tag == i then true else if Ends(a, i) then false else TagOpen(t, i)
  {
    assert (t + [a])[..|t|] == t;
  }

  lemma CredibleGrows(t: seq<Act>, a: Act)
    requires Credible(t)
    requires a.Heard? ==> TagOpen(t, a.tag) && LastSent(t, a.tag).Some? && FromDevice(a.from, LastSent(t, a.tag).value)
    requires a.Closed? && !a.late ==>
               && t != [] && t[|t| - 1].Heard? && t[|t| - 1].tag == a.tag && |HeardSince(t, a.tag)| % 8 == t[|t| - 1].from.cc
    ensures Credible(t + [a])
  {
    assert (t + [a])[..|t|] == t;
  }

  // ---------------------------------------------------------------- the tags agree with it

  /** A tag in use remembers whom its request went to and how many responses it has heard. */
  predicate Remembers(tag: Tag, t: seq<Act>, i: nat) {
    tag.busy ==>
      && TagOpen(t, i) && LastSent(t, i).Some?
      && var msg := LastSent(t, i).value; tag == Tag(true, msg.dsv, msg.dseg, msg.rid, |HeardSince(t, i)| % 8)
  }

  predicate Tracked(tags: seq<Tag>, t: seq<Act>) { Credible(t) && forall i | 0 <= i < |tags| :: Remembers(tags[i], t, i) }

  predicate Known(s: State) { Tracked(s.tags, s.trace) }

  /** Acts that are no one's request or response leave that alone. */
  lemma OtherAct(tags: seq<Tag>, t: seq<Act>, a: Act)
    requires Tracked(tags, t) && !a.Sent? && !a.Heard? && !a.Closed?
    ensures Tracked(tags, t + [a])
  {
    CredibleGrows(t, a);
    forall i | 0 <= i < |tags| ensures Remembers(tags[i], t + [a], i) { TagGrows(t, a, i); }
  }

  lemma SendTracked(tags: seq<Tag>, t: seq<Act>, k: nat, msg: AtsMessage)
    requires Tracked(tags, t) && k < |tags|
    ensures Tracked(tags[k := Tag(true, msg.dsv, msg.dseg, msg.rid, 0)], t + [Sent(k, msg)])
  {
    CredibleGrows(t, Sent(k, msg));
    var sent := tags[k := Tag(true, msg.dsv, msg.dseg, msg.rid, 0)];
    forall i | 0 <= i < |tags| ensures Remembers(sent[i], t + [Sent(k, msg)], i) {
      assert Remembers(tags[i], t, i);
      TagGrows(t, Sent(k, msg), i);
    }
  }

  lemma CloseTracked(tags: seq<Tag>, t: seq<Act>, k: nat, late: bool)
    requires Tracked(tags, t) && k < |tags| && !tags[k].busy && Credible(t + [Closed(k, late)])
    ensures Tracked(tags, t + [Closed(k, late)])
  {
    forall i | 0 <= i < |tags| ensures Remembers(tags[i], t + [Closed(k, late)], i) {
      assert Remembers(tags[i], t, i);
      TagGrows(t, Closed(k, late), i);
    }
  }

  lemma HearTracked(s: State, i: nat, m: Completion)
    requires ValidState(s) && Known(s) && i < |s.tags| && Accepts(s.tags[i], m)
    ensures Tracked(s.tags[i := Counted(s.tags[i], m)], s.trace + [Heard(i, m)])
    ensures |HeardSince(s.trace + [Heard(i, m)], i)| % 8 == Counted(s.tags[i], m).rsp
  {
    hide ValidDevice, Pow2, Credible, Remembers;
    var tags, u := s.tags[i := Counted(s.tags[i], m)], s.trace + [Heard(i, m)];
    HearRemembers(s.tags[i], s.trace, i, m);
    CredibleGrows(s.trace, Heard(i, m));
    forall j | 0 <= j < |tags| ensures Remembers(tags[j], u, j) {
      assert Remembers(s.tags[j], s.trace, j);
      if j != i { StillRemembers(s.tags[j], s.trace, j, Heard(i, m)); }
    }
  }

  lemma HearRemembers(tag: Tag, t: seq<Act>, i: nat, m: Completion)
    requires Remembers(tag, t, i) && Accepts(tag, m)
    ensures TagOpen(t, i) && LastSent(t, i).Some? && FromDevice(m, LastSent(t, i).value)
    ensures Remembers(Counted(tag, m), t + [Heard(i, m)], i) && |HeardSince(t + [Heard(i, m)], i)| % 8 == Counted(tag, m).rsp
  {
    hide TagOpen, HeardSince, LastSent;
    TagGrows(t, Heard(i, m), i);
    NextCount(|HeardSince(t, i)|);
  }

  lemma StillRemembers(tag: Tag, t: seq<Act>, i: nat, a: Act)
    requires Remembers(tag, t, i) && (a.Heard? ==> a.tag != i) && !a.Sent? && !a.Closed?
    ensures Remembers(tag, t + [a], i)
  {
    TagGrows(t, a, i);
  }

  lemma CreditKnown(s: State, i: nat, m: Completion)
    requires ValidState(s) && Known(s) && i < |s.tags| && Accepts(s.tags[i], m)
    ensures Known(Credited(s, i, m))
  {
    HearTracked(s, i, m);
    var tags, u := s.tags[i := Counted(s.tags[i], m)], s.trace + [Heard(i, m)];
    if !tags[i].busy {
      assert u[|u| - 1] == Heard(i, m);
      hide Credible, HeardSince, Remembers;
      CredibleGrows(u, Closed(i, false));
      CloseTracked(tags, u, i, false);
    }
  }

  lemma LapseKnown(s: State, i: nat)
    requires ValidState(s) && Known(s) && i < |s.tags|
    ensures Known(Lapsed(s, i))
  {
    hide ValidDevice, Pow2, Credible, TagOpen;
    var tags := s.tags[i := s.tags[i].(busy := false)];
    forall j | 0 <= j < |tags| ensures Remembers(tags[j], s.trace, j) { assert Remembers(s.tags[j], s.trace, j); }
    if s.tags[i].busy {
      CredibleGrows(s.trace, Closed(i, true));
      CloseTracked(tags, s.trace, i, true);
    }
  }

  // ---------------------------------------------------------------- every step keeps it so

  lemma {:induction false} CompletionKnown(s: State, i: nat, m: Completion)
    requires ValidState(s) && Known(s) && i <= |s.tags|
    ensures Known(CompleteFrom(s, i, m).0)
    decreases |s.tags| - i
  {
    hide ValidDevice, Pow2, BitSet, Accepts, Counted, Known;
    if i < |s.tags| {
      if !BitSet(m.vector, i) { CompletionKnown(s, i + 1, m); }
      else if Accepts(s.tags[i], m) {
        CreditKnown(s, i, m);
        CompletionKnown(Credited(s, i, m), i + 1, m);
      }
    }
  }

  lemma {:induction false} ExpiryKnown(s: State, i: nat, vector: nat)
    requires ValidState(s) && Known(s) && i <= |s.tags|
    ensures Known(ExpireFrom(s, i, vector))
    decreases |s.tags| - i
  {
    hide ValidDevice, Pow2, BitSet, Known;
    if i < |s.tags| {
      if !BitSet(vector, i) { ExpiryKnown(s, i + 1, vector); }
      else {
        LapseKnown(s, i);
        ExpiryKnown(Lapsed(s, i), i + 1, vector);
      }
    }
  }

  lemma FenceKnown(s: State, f: Fence)
    requires ValidState(s) && Known(s)
    ensures Known(DoFence(s, f).0)
  {
    hide Raised, MemoryFault, FenceInterrupts, ValidDevice, Pow2, Tracked, AnyBusy;
    OtherAct(s.tags, s.trace, TimeoutReported);
    OtherAct(s.tags, s.trace, Synced(f.pr, f.pw));
    var t := if f.pr || f.pw then s.trace + [Synced(f.pr, f.pw)] else s.trace;
    OtherAct(s.tags, t, FenceStored(f.addr, f.data));
  }

  lemma ResumeKnown(s: State)
    requires ValidState(s) && Known(s) && (s.waiting ==> s.Csr().cqon)
    ensures Known(Resume(s))
  {
    hide DoFence, ValidDevice, Pow2, Tracked, AnyBusy, FreeTag, Low;
    var s1 := s;
    if s.waiting && !AnyBusy(s.tags) {
      FenceKnown(s, s.fence);
      var s0 := DoFence(s, s.fence).0;
      OtherAct(s0.tags, s0.trace, Retired(s0.cq.head, true));
      s1 := PendingFence(s);
    }
    if !s1.waiting && s1.stalled && FreeTag(s1.tags, 0) < |s1.tags| { SendTracked(s1.tags, s1.trace, FreeTag(s1.tags, 0), s1.blocked); }
  }

  lemma ExecuteKnown(s: State, c: Command)
    requires ValidState(s) && Known(s) && s.Csr().cqon
    ensures Known(Execute(s, c))
  {
    hide DoFence, ValidDevice, Pow2, Tracked, Signal, FreeTag, Low;
    if !IllegalHere(s, c) {
      match c {
        case FenceC(f) =>
          FenceKnown(s, f);
          var s1 := DoFence(s, f).0;
          OtherAct(s1.tags, s1.trace, Retired(s1.cq.head, true));
        case Inval(m) =>
          var k := FreeTag(s.tags, 0);
          OtherAct(s.tags, s.trace, Opened);
          if k < |s.tags| { SendTracked(s.tags, s.trace + [Opened], k, m); }
          var s1 := if k < |s.tags| then Send(Did(s, Opened), k, m) else Did(s, Opened);
          OtherAct(s1.tags, s1.trace, Retired(s.cq.head, false));
        case Prgr(m) =>
          OtherAct(s.tags, s.trace, Responded(m));
          OtherAct(s.tags, s.trace + [Responded(m)], Retired(s.cq.head, false));
        case _ => OtherAct(s.tags, s.trace, Retired(s.cq.head, false));
      }
    }
  }

  lemma StepKnown(s: State, e: Event)
    requires ValidState(s) && (s.waiting ==> s.Csr().cqon) && Legal(s, e) && Known(s)
    ensures Known(Step(s, e))
  {
    hide ValidDevice, Pow2, Tracked, Signal, Execute, Resume, CompleteFrom, ExpireFrom, Low, Or;
    match e {
      case Commands(fetched) => if fetched.Loaded? && s.Csr().cqon { ExecuteKnown(s, fetched.cmd); }
      case Completed(m) =>
        CompletionKnown(s, 0, m);
        ResumeKnown(CompleteFrom(s, 0, m).0);
      case Expired(vector) =>
        ExpiryKnown(s, 0, vector);
        var s1 := ExpireFrom(s, 0, vector);
        OtherAct(s1.tags, s1.trace, TimedOut);
        ResumeKnown(Did(s1.(timeout := true), TimedOut));
      case Control(w) => OtherAct(s.tags, s.trace, Started);
      case _ =>
    }
  }

  lemma {:induction false} RunKnown(s: State, es: seq<Event>)
    requires Inv(s) && LegalRun(s, es) && Known(s)
    ensures Known(Run(s, es))
    decreases |es|
  {
    hide Known, Step;
    if es != [] {
      StepKeeps(s, es[0]);
      StepKnown(s, es[0]);
      RunKnown(Step(s, es[0]), es[1..]);
    }
  }

  lemma FreshIsKnown(s: State)
    requires Fresh(s)
    ensures Inv(s) && Known(s)
  {
    FreshIsConsistent(s);
  }

  // ---------------------------------------------------------------- what that means

  lemma {:induction false} CredibleAt(t: seq<Act>, j: nat)
    requires Credible(t) && j < |t|
    ensures t[j].Heard? ==>
              && TagOpen(t[..j], t[j].tag) && LastSent(t[..j], t[j].tag).Some?
              && FromDevice(t[j].from, LastSent(t[..j], t[j].tag).value)
    ensures t[j].Closed? && !t[j].late ==>
              && 0 < j && t[j - 1].Heard? && t[j - 1].tag == t[j].tag
              && |HeardSince(t[..j], t[j].tag)| % 8 == t[j - 1].from.cc
    decreases |t|
  {
    var n := |t| - 1;
    if j < n {
      CredibleAt(t[..n], j);
      assert t[..n][..j] == t[..j];
    }
  }

  /** In every run from reset: each response that counts was heard from the device of the request last sent under
      its tag, which was not over; and each request that was not given up to a timeout ended with a response, as
      the one that made the count of those responses what it says. */
  lemma ResponsesInEveryRun(s: State, es: seq<Event>, j: nat)
    requires Fresh(s) && (FreshIsConsistent(s); LegalRun(s, es))
    requires (FreshIsConsistent(s); j < |Run(s, es).trace|)
    ensures (FreshIsConsistent(s); var t := Run(s, es).trace;
            && (t[j].Heard? ==>
                  && TagOpen(t[..j], t[j].tag) && LastSent(t[..j], t[j].tag).Some?
                  && FromDevice(t[j].from, LastSent(t[..j], t[j].tag).value))
            && (t[j].Closed? && !t[j].late ==>
                  && 0 < j && t[j - 1].Heard? && t[j - 1].tag == t[j].tag
                  && |HeardSince(t[..j], t[j].tag)| % 8 == t[j - 1].from.cc))
  {
    FreshIsKnown(s);
    RunKnown(s, es);
    CredibleAt(Run(s, es).trace, j);
  }

  /** The vector names tag `i` and no other. */
  predicate NamesOnly(vector: nat, i: nat) { i < MAX_ITAGS && forall j | 0 <= j < MAX_ITAGS :: BitSet(vector, j) <==> j == i }

  /** A completion of one tag is unexpected exactly if no request is out under the tag or the one that is went to
      another device; it then changes nothing. Otherwise it is heard, and ends the request if the count is full. */
  lemma OneTagCompletion(s: State, i: nat, m: Completion)
    requires Inv(s) && Known(s) && NamesOnly(m.vector, i)
    ensures var (s', unexpected) := Complete(s, m);
            && (unexpected <==> !TagOpen(s.trace, i) || LastSent(s.trace, i).None? || !FromDevice(m, LastSent(s.trace, i).value))
            && (unexpected ==> s' == s)
    ensures var (s1, unexpected) := CompleteFrom(s, 0, m);
            !unexpected ==>
              && Complete(s, m).0 == Resume(s1)
              && s1.trace == s.trace + [Heard(i, m)] + if (|HeardSince(s.trace, i)| + 1) % 8 == m.cc then [Closed(i, false)] else []
  {
    hide ValidDevice, Pow2, BitSet, Resume, Credible, TagOpen, Accepts, Credited, CompleteFrom;
    OneTag(s, i, m);
    AcceptsMeans(s, i, m);
    if Accepts(s.tags[i], m) { CreditTrace(s, i, m); }
  }

  lemma OneTag(s: State, i: nat, m: Completion)
    requires ValidState(s) && NamesOnly(m.vector, i)
    ensures CompleteFrom(s, 0, m) == if Accepts(s.tags[i], m) then (Credited(s, i, m), false) else (s, true)
  {
    hide ValidDevice, Pow2, BitSet, Accepts, Credited;
    if i == 1 { assert CompleteFrom(s, 0, m) == CompleteFrom(s, 1, m); }
    if Accepts(s.tags[i], m) { assert CompleteFrom(Credited(s, i, m), i + 1, m) == CompleteFrom(Credited(s, i, m), 2, m); }
  }

  /** A tag takes a response exactly if its request is out, to the sender. */
  lemma AcceptsMeans(s: State, i: nat, m: Completion)
    requires Inv(s) && Known(s) && i < MAX_ITAGS
    ensures Accepts(s.tags[i], m) <==> TagOpen(s.trace, i) && LastSent(s.trace, i).Some? && FromDevice(m, LastSent(s.trace, i).value)
  {
    hide ValidDevice, Pow2, Credible, TagOpen, HeardSince, LastSent;
    assert Remembers(s.tags[i], s.trace, i);
  }

  lemma CreditTrace(s: State, i: nat, m: Completion)
    requires ValidState(s) && Known(s) && i < |s.tags| && Accepts(s.tags[i], m)
    ensures Credited(s, i, m).trace ==
              s.trace + [Heard(i, m)] + if (|HeardSince(s.trace, i)| + 1) % 8 == m.cc then [Closed(i, false)] else []
  {
    hide ValidDevice, Pow2, Credible, TagOpen, LastSent;
    assert Remembers(s.tags[i], s.trace, i);
    NextCount(|HeardSince(s.trace, i)|);
  }

  lemma NextCount(n: nat)
    ensures (n % 8 + 1) % 8 == (n + 1) % 8
  {
  }

  /** A completion from a device that no request under a named tag went to changes nothing and is reported. */
  lemma FromElsewhere(s: State, m: Completion)
    requires Inv(s) && Known(s) && exists i | 0 <= i < MAX_ITAGS :: BitSet(m.vector, i)
    requires forall i | 0 <= i < MAX_ITAGS && BitSet(m.vector, i) ::
               !TagOpen(s.trace, i) || LastSent(s.trace, i).None? || !FromDevice(m, LastSent(s.trace, i).value)
    ensures Complete(s, m) == (s, true)
  {
    hide ValidDevice, Pow2, BitSet, Resume, Credible, TagOpen, Accepts;
    AcceptsMeans(s, 0, m);
    AcceptsMeans(s, 1, m);
    if !BitSet(m.vector, 0) { assert CompleteFrom(s, 0, m) == CompleteFrom(s, 1, m); }
  }

  // ---------------------------------------------------------------- what a fence has waited for

  /** The request sent at `i` ended at `m`, under its own tag and before another was sent there. */
  predicate EndedAt(t: seq<Act>, i: nat, m: nat)
    requires i < |t| && t[i].Sent?
  {
    i < m < |t| && Ends(t[m], t[i].tag) && LastSent(t[..m], t[i].tag) == Some(t[i].msg)
  }

  lemma {:induction false} OutOrEnded(t: seq<Act>, i: nat) returns (m: nat)
    requires Lawful(t) && i < |t| && t[i].Sent?
    ensures (TagOpen(t, t[i].tag) && LastSent(t, t[i].tag) == Some(t[i].msg)) || EndedAt(t, i, m)
    decreases |t|
  {
    var n := |t| - 1;
    m := n;
    if i < n {
      var u, a := t[..n], t[n];
      assert t == u + [a];
      var k := OutOrEnded(u, i);
      TagGrows(u, a, t[i].tag);
      if EndedAt(u, i, k) {
        assert u[..k] == t[..k];
        m := k;
      }
    }
  }

  /** The request was given up, or its device has answered as often as its last answer says. */
  predicate EndedWell(t: seq<Act>, i: nat, m: nat)
    requires i < |t| && t[i].Sent?
  {
    EndedAt(t, i, m) &&
    (t[m].late ||
     (t[m - 1].Heard? && FromDevice(t[m - 1].from, t[i].msg) && |HeardSince(t[..m], t[i].tag)| % 8 == t[m - 1].from.cc))
  }

  lemma EndsWell(t: seq<Act>, i: nat, m: nat)
    requires Credible(t) && i < |t| && t[i].Sent? && EndedAt(t, i, m)
    ensures EndedWell(t, i, m)
  {
    CredibleAt(t, m);
    if !t[m].late {
      CredibleAt(t, m - 1);
      assert t[..m] == t[..m - 1] + [t[m - 1]];
      TagGrows(t[..m - 1], t[m - 1], t[i].tag);
    }
  }

  /** In every run from reset, before a fence takes effect each request sent earlier has so ended. */
  lemma FencesWaitForDevices(s: State, es: seq<Event>, i: nat, j: nat) returns (m: nat)
    requires Fresh(s) && (FreshIsConsistent(s); LegalRun(s, es))
    requires (FreshIsConsistent(s); var t := Run(s, es).trace; i < j < |t| && FenceAct(t[j]) && t[i].Sent?)
    ensures (FreshIsConsistent(s); m < j && EndedWell(Run(s, es).trace, i, m))
  {
    FreshIsKnown(s);
    RunKnown(s, es);
    RunKeeps(s, es);
    var t := Run(s, es).trace;
    hide Run, Known;
    assert Lawful(t) && Credible(t);
    m := EndedBefore(t, i, j);
    EndsWell(t, i, m);
  }

  lemma EndedBefore(t: seq<Act>, i: nat, j: nat) returns (m: nat)
    requires Lawful(t) && i < j < |t| && FenceAct(t[j]) && t[i].Sent?
    ensures m < j && EndedAt(t, i, m)
  {
    LawfulPrefix(t, j);
    LawfulPart(t, j);
    SentTagBound(t, i);
    m := OutOrEnded(t[..j], i);
    assert t[..j][..m] == t[..m];
  }

  lemma {:induction false} LawfulPart(t: seq<Act>, j: nat)
    requires Lawful(t) && j <= |t|
    ensures Lawful(t[..j])
    decreases |t|
  {
    if j < |t| {
      LawfulPart(t[..|t| - 1], j);
      assert t[..|t| - 1][..j] == t[..j];
    } else {
      assert t[..j] == t;
    }
  }
}
