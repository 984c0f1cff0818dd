/** Who gets where: the requests that are turned away and why, those that keep their address, those that are
    walked and with which first-stage root; and the answer an ATS translation request gets for each reason. */
module RouteRules {
  import opened Bits
  import opened Common
  import opened PageTables
  import opened SecondStage
  import opened TwoStage
  import opened Translate
  import opened DeviceContexts
  import opened Directories
  import opened DeviceIds
  import opened Msi
  import opened TranslationProcess

  // ---------------------------------------------------------------- before a device is known

  /** With the IOMMU off everything is turned away; with ddtp Bare untranslated requests keep their address and
      all others are turned away; with a directory ids too wide for it are, and devices it does not have. */
  lemma BeforeTheDevice(c: Config, ts: Tables, r: Incoming, m: Store)
    requires ValidTables(ts) && Usable(c)
    ensures ts.mode.Off? ==> Process(c, ts, r, m) == (Faulted(256, 0), m)
    ensures ts.mode.DirectBare? && r.kind.Untranslated? ==> (Process(c, ts, r, m).0).Done? && (Process(c, ts, r, m).0).pa == r.iova
    ensures ts.mode.DirectBare? && !r.kind.Untranslated? ==> Process(c, ts, r, m) == (Faulted(260, 0), m)
    ensures ts.mode.Levels? && TooWide(ts.mode.n, c.caps.msiFlat, r.id) ==> Process(c, ts, r, m) == (Faulted(260, 0), m)
    ensures var l := LocateDevice(c, ts.tree, r.id, m);
            ts.mode.Levels? && !TooWide(ts.mode.n, c.caps.msiFlat, r.id) && l.Failed? ==> Process(c, ts, r, m) == (Faulted(l.cause, 0), m)
  {
    hide TooWide, LocateDeviceFrom, WalksOf, DeviceRoute, SpaceOf;
  }

  // ---------------------------------------------------------------- what the device context allows

  /** The request has come to its device context. */
  predicate HasDevice(c: Config, ts: Tables, r: Incoming, m: Store, dc: DeviceContext)
    requires ValidTables(ts)
  {
    ts.mode.Levels? && !TooWide(ts.mode.n, c.caps.msiFlat, r.id) && LocateDevice(c, ts.tree, r.id, m) == Found(dc)
  }

  /** ATS needs EN_ATS, a process id needs a process directory of its width. */
  predicate Disallowed(dc: DeviceContext, r: Incoming) {
    || ((r.kind.Translated? || r.kind.AtsRequest?) && !dc.tc.enAts)
    || (r.pid.Some? && !dc.tc.pdtv)
    || (r.pid.Some? && dc.fsc.mode == 2 && r.pid.value >= 0x20000)
    || (r.pid.Some? && dc.fsc.mode == 1 && r.pid.value >= 0x100)
  }

  /** The process whose context the request uses: its own, or process 0 by default if the device asks for that. */
  function ProcessOf(dc: DeviceContext, r: Incoming): Option<nat> {
    if r.kind.Translated? || !dc.tc.pdtv || dc.fsc.mode == 0 then None
    else if r.pid.Some? then r.pid
    else if dc.tc.dpe then Some(0) else None
  }

  /** Requests that the context does not allow are turned away with cause 260; translated ones keep their address,
      unless they carry guest addresses, which go through the second stage alone; the others are walked from the
      first-stage root of the device, or without a first stage where processes have theirs and none applies. */
  lemma WithoutProcess(c: Config, ts: Tables, r: Incoming, m: Store, dc: DeviceContext)
    requires ValidTables(ts) && HasDevice(c, ts, r, m, dc)
    ensures Disallowed(dc, r) ==> RouteOf(c, ts, r, m) == (Stop(260, 0), m)
    ensures !Disallowed(dc, r) && ProcessOf(dc, r).None? ==>
              var (route, n) := RouteOf(c, ts, r, m);
              n == m &&
              if r.kind.Translated? && !dc.tc.t2gpa then route.Identity?
              else route.Walks? && route.dc == dc && route.fsc == if r.kind.Translated? || dc.tc.pdtv then Atp(0, 0, 0) else dc.fsc
  {
    hide TooWide, LocateDeviceFrom, LocateProcessFrom;
  }

  /** A process context is used with its root and SUM bit; supervisors are turned away unless it lets them in, but
      for process 0 by default, which is no supervisor's. A context that cannot be located is the cause. */
  lemma WithProcess(c: Config, ts: Tables, r: Incoming, m: Store, dc: DeviceContext)
    requires ValidTables(ts) && HasDevice(c, ts, r, m, dc) && !Disallowed(dc, r) && ProcessOf(dc, r).Some?
    ensures var (l, n) := LocateProcess(c, dc, ts.tree, ProcessOf(dc, r).value, m);
            RouteOf(c, ts, r, m) ==
              match l
              case Failed(cause) => (Stop(cause, 0), n)
              case GuestPageFault(gpa) => (Stop(if r.exec then 20 else if r.read then 21 else 23, gpa - gpa % 4 + 1), n)
              case Found(pc) => (if r.pid.Some? && r.priv && !pc.ens then Stop(260, 0) else Walks(dc, pc.fsc, pc.sum), n)
  {
    hide TooWide, LocateDeviceFrom, LocateProcessFrom;
  }

  /** The walks see the address and rights of the request; only ATS translation requests are not tested for them, and
      only a request that names a process can be a supervisor's. */
  lemma AskedFor(r: Incoming, sum: bool)
    ensures var q := RequestOf(r, sum);
            && q.iova == r.iova && q.read == r.read && q.write == r.write && q.exec == r.exec && q.sum == sum
            && (q.check <==> r.kind.Untranslated? || r.kind.Translated?) && (q.supervisor <==> r.pid.Some? && r.priv)
  {
  }

  // ---------------------------------------------------------------- answers

  /** Entries that are missing or do not allow the access give an ATS translation request a success without rights. */
  lemma MissingIsEmpty(c: Config, ptes: map<nat, MsiPte>, sp: Space, msi: MsiFields, req: Request, m: Store)
    requires ValidSpace(sp)
    ensures var ((v, m1), o) := (VWalk(sp, req, m), WalksOf(c, ptes, sp, msi, req, m).0);
            v.VErr? && (v.fault.PageFault? || v.fault.GuestPageFault?) ==> AnswerTo(AtsRequest, o) == EmptySuccess
    ensures var ((v, m1), o) := (VWalk(sp, req, m), WalksOf(c, ptes, sp, msi, req, m).0);
            v.VOk? && v.gpa < TWO_64 && MsiTranslation(c.caps, msi, ptes, v.gpa, req.exec && req.check, m1).NotMsi? ==>
              var g := GWalk(sp, Explicit(req), v.gpa, m1).0;
              && (g.GErr? && g.fault.GstPageFault? ==> AnswerTo(AtsRequest, o) == EmptySuccess)
              && (g.GErr? && !g.fault.GstPageFault? ==> AnswerTo(AtsRequest, o) == CompleterAbort(true))
              && (g.GOk? ==> AnswerTo(AtsRequest, o) == Granted)
    ensures var ((v, m1), o) := (VWalk(sp, req, m), WalksOf(c, ptes, sp, msi, req, m).0);
            v.VErr? && (v.fault.WalkAccessFault? || v.fault.WalkCorruption?) ==> AnswerTo(AtsRequest, o) == CompleterAbort(true)
  {
    hide VWalk, GWalk, MsiTranslation, Splice;
    VResultFits(sp, req, m);
  }

  /** What stops a request before its walks: one that is not allowed, or whose device is unknown or cannot be read, is
      unsupported; unreadable or bad contexts of a known device abort it; a missing process context is an empty success. */
  lemma StopsAnswered(c: Config, t: Tree, dc: DeviceContext, id: nat, pid: nat, m: Store)
    requires ValidTree(t)
    ensures var l := LocateDevice(c, t, id, m);
            l.Failed? ==>
              AnswerTo(AtsRequest, Faulted(l.cause, 0)) == if l.cause == 268 then CompleterAbort(true) else UnsupportedRequest(true)
    ensures var l := LocateProcess(c, dc, t, pid, m).0;
            l.Failed? ==>
              AnswerTo(AtsRequest, Faulted(l.cause, 0)) == if l.cause == 266 then EmptySuccess else CompleterAbort(true)
    ensures AnswerTo(AtsRequest, Faulted(256, 0)) == UnsupportedRequest(true)
    ensures AnswerTo(AtsRequest, Faulted(260, 0)) == UnsupportedRequest(true)
  {
    hide LocateDeviceFrom, LocateProcessFrom;
    DeviceCauses(c, t, id, t.levels - 1, t.root * PAGE_SIZE, m);
    ProcessCauses(c, dc, t, pid, ProcessLevels(dc) - 1, dc.fsc.ppn * PAGE_SIZE, m);
  }

  /** An entry of the MSI page table that is invalid is an empty success too; a bad or unreadable one aborts. */
  lemma FilesAnswered(caps: Capabilities, msi: MsiFields, ptes: map<nat, MsiPte>, gpa: U64, m: Store)
    ensures var r := MsiTranslation(caps, msi, ptes, gpa, false, m);
            r.MsiFault? ==> AnswerTo(AtsRequest, Faulted(r.cause, 0)) == if r.cause == 262 then EmptySuccess else CompleterAbort(true)
  {
    MsiCauses(caps, msi, ptes, gpa, false, m);
    hide MsiTranslation;
  }

  /** Other requests that stop are unsupported, and reported. */
  lemma OthersAnswered(kind: Kind, o: Outcome)
    requires !kind.AtsRequest?
    ensures AnswerTo(kind, o) == if o.Done? then Granted else UnsupportedRequest(true)
  {
  }
}
