/** The directory caches: with covering invalidations they cannot be told from walking the
    directories, and they never hold two valid entries for one key. */
module DirectoryCaches {
  import opened Common
  import opened PageTables
  import opened DeviceContexts
  import opened AdUpdates
  import opened Directories

  const CACHE_SIZE: nat := 2

  datatype Entry<K, V> = Entry(valid: bool, key: K, ctx: V, lru: nat)

  predicate HoldsKey<K(==), V>(e: Entry<K, V>, key: K) { e.valid && e.key == key }

  /** The first entry of the key, or the number of entries. */
  function FirstOf<K(==), V>(cache: seq<Entry<K, V>>, key: K): (i: nat)
    ensures i <= |cache| && (forall j | 0 <= j < i :: !HoldsKey(cache[j], key)) && (i < |cache| ==> HoldsKey(cache[i], key))
  {
    if cache == [] || HoldsKey(cache[0], key) then 0 else 1 + FirstOf(cache[1..], key)
  }

  function Aged<K(==), V>(cache: seq<Entry<K, V>>, key: K, time: nat): seq<Entry<K, V>> {
    var i := FirstOf(cache, key);
    if i < |cache| then cache[i := cache[i].(lru := time)] else cache
  }

  function Replaced<K, V>(cache: seq<Entry<K, V>>, i: nat, key: K, ctx: V): seq<Entry<K, V>> {
    if i < |cache| then cache[i := Entry(true, key, ctx, cache[i].lru)] else cache
  }

  function Swept<K, V>(cache: seq<Entry<K, V>>, drop: K -> bool): (r: seq<Entry<K, V>>)
    ensures |r| == |cache| && forall i | 0 <= i < |cache| :: r[i] == cache[i].(valid := cache[i].valid && !drop(cache[i].key))
  {
    seq(|cache|, i requires 0 <= i < |cache| => cache[i].(valid := cache[i].valid && !drop(cache[i].key)))
  }

  const OLDEST: nat := 0xFFFF_FFFF

  /** No entry is free and none was used before time 2^32 - 1. */
  predicate NoneOlder<K, V>(cache: seq<Entry<K, V>>) { forall i | 0 <= i < |cache| :: cache[i].valid && cache[i].lru >= OLDEST }

  /** The first free slot, or, if all are taken, the first least recently used. */
  predicate FillsSlot<K, V>(cache: seq<Entry<K, V>>, i: nat) {
    && i < |cache|
    && (!cache[i].valid ==> forall j | 0 <= j < i :: cache[j].valid)
    && (cache[i].valid ==> (forall j | 0 <= j < |cache| :: cache[j].valid && cache[i].lru <= cache[j].lru)
                           && forall j | 0 <= j < i :: cache[i].lru < cache[j].lru)
  }

  /** So what the variable held decides the slot in that one case only. */
  lemma FilledSlotIsOne<K, V>(cache: seq<Entry<K, V>>, i: nat, j: nat)
    requires FillsSlot(cache, i) && FillsSlot(cache, j)
    ensures i == j
  {
  }

  predicate UniqueKeys<K(==), V>(cache: seq<Entry<K, V>>) {
    forall i, j | 0 <= i < j < |cache| && cache[i].valid && cache[j].valid :: cache[i].key != cache[j].key
  }

  /** A fill made after a miss leaves no key twice. */
  lemma FillKeepsUnique<K, V>(cache: seq<Entry<K, V>>, i: nat, key: K, ctx: V)
    requires UniqueKeys(cache) && FirstOf(cache, key) == |cache|
    ensures UniqueKeys(Replaced(cache, i, key, ctx))
  {
  }

  // ---------------------------------------------------------------- the arrays and loops

  /** `ddt_cache` and `pdt_cache` are arrays of this form. */
  class Cache<K(==), V> {
    const entries: array<Entry<K, V>>
    var lruTime: nat

    ghost predicate Valid() reads this, entries { entries.Length == CACHE_SIZE && lruTime < 0x1_0000_0000 }

    constructor (blank: Entry<K, V>)
      requires !blank.valid
      ensures Valid() && fresh(entries) && forall i | 0 <= i < CACHE_SIZE :: entries[i] == blank
    {
      entries := new Entry<K, V>[CACHE_SIZE](_ => blank);
      lruTime := 0;
    }

    /** `lookup_ioatc_dc`, `lookup_ioatc_pc` */
    method Lookup(key: K) returns (hit: bool, i: nat)
      requires Valid()
      modifies this`lruTime, entries
      ensures Valid() && i == FirstOf(old(entries[..]), key) && hit == (i < CACHE_SIZE)
      ensures entries[..] == Aged(old(entries[..]), key, old(lruTime))
    {
      i := 0;
      while i < entries.Length && !HoldsKey(entries[i], key)
        invariant i <= entries.Length && forall j | 0 <= j < i :: !HoldsKey(entries[j], key)
      {
        i := i + 1;
      }
      FirstIs(entries[..], key, i);
      hit := i < entries.Length;
      if hit {
        entries[i] := entries[i].(lru := lruTime);
        lruTime := (lruTime + 1) % 0x1_0000_0000;
      }
    }

    /** `cache_ioatc_dc`, `cache_ioatc_pc`: the first free slot, or else the first least recently used one.
        `slot0` is what the slot variable holds before; it has to be an index only where it is used. */
    method Fill(key: K, ctx: V, slot0: nat) returns (slot: nat)
      requires Valid() && (NoneOlder(entries[..]) ==> slot0 < CACHE_SIZE)
      modifies entries
      ensures Valid() && slot < CACHE_SIZE && entries[..] == Replaced(old(entries[..]), slot, key, ctx)
      ensures if NoneOlder(old(entries[..])) then slot == slot0 else FillsSlot(old(entries[..]), slot)
    {
      slot := slot0;
      var i: nat := 0;
      while i < entries.Length && entries[i].valid
        invariant i <= entries.Length && forall j | 0 <= j < i :: entries[j].valid
      {
        i := i + 1;
      }
      if i < entries.Length {
        slot := i;
      } else {
        var lru := OLDEST;
        i := 0;
        while i < entries.Length
          invariant i <= entries.Length && lru <= OLDEST
          invariant forall j | 0 <= j < i :: lru <= entries[j].lru
          invariant if lru == OLDEST then slot == slot0 else
                      slot < i && entries[slot].lru == lru && forall j | 0 <= j < slot :: lru < entries[j].lru
        {
          if entries[i].lru < lru { slot, lru := i, entries[i].lru; }
          i := i + 1;
        }
      }
      entries[slot] := Entry(true, key, ctx, entries[slot].lru);
    }

    /** The loops of `do_inval_ddt` and `do_inval_pdt` */
    method Invalidate(drop: K -> bool)
      requires Valid()
      modifies entries
      ensures Valid() && entries[..] == Swept(old(entries[..]), drop)
    {
      for i := 0 to entries.Length
        invariant forall j | 0 <= j < i :: entries[j] == old(entries[j]).(valid := old(entries[j]).valid && !drop(old(entries[j]).key))
        invariant forall j | i <= j < entries.Length :: entries[j] == old(entries[j])
      {
        if entries[i].valid && drop(entries[i].key) { entries[i] := entries[i].(valid := false); }
      }
    }
  }

  lemma FirstIs<K, V>(cache: seq<Entry<K, V>>, key: K, i: nat)
    requires i <= |cache| && (forall j | 0 <= j < i :: !HoldsKey(cache[j], key)) && (i < |cache| ==> HoldsKey(cache[i], key))
    ensures FirstOf(cache, key) == i
  {
  }

  /** The context of a device, from its entry if the cache has one */
  function DeviceBy(c: Config, t: Tree, dcs: seq<Entry<nat, DeviceContext>>, id: nat, m: Store): Located<DeviceContext>
    requires ValidTree(t)
  {
    var i := FirstOf(dcs, id);
    if i < |dcs| then Found(dcs[i].ctx) else LocateDevice(c, t, id, m)
  }

  /** The cache after that, if `slot` is where a fill goes */
  function DevicesAfter(c: Config, t: Tree, dcs: seq<Entry<nat, DeviceContext>>, id: nat, m: Store, time: nat, slot: nat)
    : seq<Entry<nat, DeviceContext>>
    requires ValidTree(t)
  {
    var l := DeviceBy(c, t, dcs, id, m);
    if FirstOf(dcs, id) < |dcs| then Aged(dcs, id, time) else if l.Found? then Replaced(dcs, slot, id, l.ctx) else dcs
  }

  /** `locate_device_context` with its cache */
  method LocateDeviceContext(c: Config, t: Tree, id: nat, cache: Cache<nat, DeviceContext>, mem: Memory, slot0: nat)
    returns (r: Located<DeviceContext>, slot: nat)
    requires ValidTree(t) && cache.Valid() && (NoneOlder(cache.entries[..]) ==> slot0 < CACHE_SIZE)
    modifies cache`lruTime, cache.entries
    ensures cache.Valid() && r == DeviceBy(c, t, old(cache.entries[..]), id, mem.store)
    ensures cache.entries[..] == DevicesAfter(c, t, old(cache.entries[..]), id, mem.store, old(cache.lruTime), slot)
  {
    hide LocateDevice, FirstOf;
    var hit, i := cache.Lookup(id);
    slot := slot0;
    if hit { return Found(cache.entries[i].ctx), slot; }
    r := LocateDeviceCode(c, t, id, mem);
    if r.Found? { slot := cache.Fill(id, r.ctx, slot0); }
  }

  /** `locate_process_context` with its cache */
  method LocateProcessContext(c: Config, dc: DeviceContext, t: Tree, id: nat, pid: nat, cache: Cache<(nat, nat), ProcessContext>,
                              mem: Memory)
    returns (r: Located<ProcessContext>, slot: nat)
    requires !Misconfigured(c, dc) && c.caps.pas <= 56 && BareSizesFit(c, dc.tc.sxl) && cache.Valid()
    modifies cache`lruTime, cache.entries, mem
    ensures cache.Valid()
    ensures var was, i := old(cache.entries[..]), FirstOf(old(cache.entries[..]), (id, pid));
            if i < |was| then
              r == Found(was[i].ctx) && cache.entries[..] == Aged(was, (id, pid), old(cache.lruTime)) && mem.store == old(mem.store)
            else
              && (r, mem.store) == LocateProcess(c, dc, t, pid, old(mem.store))
              && cache.entries[..] == if r.Found? then Replaced(was, slot, (id, pid), r.ctx) else was
  {
    hide LocateProcess, FirstOf, Misconfigured;
    var hit, i := cache.Lookup((id, pid));
    slot := 0;
    if hit { return Found(cache.entries[i].ctx), slot; }
    r := LocateProcessCode(c, dc, t, pid, mem);
    if r.Found? { slot := cache.Fill((id, pid), r.ctx, 0); }
  }

  // ---------------------------------------------------------------- the two machines

  datatype State = State(dcs: seq<Entry<nat, DeviceContext>>, pcs: seq<Entry<(nat, nat), ProcessContext>>, tree: Tree, mem: Store)

  datatype Answer =
    | NoDevice(why: Located<DeviceContext>)
    | DeviceOnly(dc: DeviceContext)
    | WithProcess(dc: DeviceContext, pc: Located<ProcessContext>)

  /** The process directory is looked at. */
  predicate WantsProcess(dc: DeviceContext, pid: Option<nat>) { pid.Some? && HasDirectory(dc) }

  /** A request for the contexts of a device and process; `slotD` and `slotP` are the entries fills replace. */
  function CachedAsk(c: Config, s: State, id: nat, pid: Option<nat>, time: nat, slotD: nat, slotP: nat): (Answer, State)
    requires ValidTree(s.tree)
  {
    var l := DeviceBy(c, s.tree, s.dcs, id, s.mem);
    if !l.Found? then (NoDevice(l), s)
    else
      var s1 := s.(dcs := DevicesAfter(c, s.tree, s.dcs, id, s.mem, time, slotD));
      if !WantsProcess(l.ctx, pid) then (DeviceOnly(l.ctx), s1)
      else
        var (p, s2) := CachedProcess(c, s1, l.ctx, id, pid.value, time, slotP);
        (WithProcess(l.ctx, p), s2)
  }

  function CachedProcess(c: Config, s: State, dc: DeviceContext, id: nat, pid: nat, time: nat, slot: nat)
    : (Located<ProcessContext>, State)
  {
    var j := FirstOf(s.pcs, (id, pid));
    if j < |s.pcs| then (Found(s.pcs[j].ctx), s.(pcs := Aged(s.pcs, (id, pid), time)))
    else
      var (p, n) := LocateProcess(c, dc, s.tree, pid, s.mem);
      (p, s.(mem := n, pcs := if p.Found? then Replaced(s.pcs, slot, (id, pid), p.ctx) else s.pcs))
  }

  function PlainAsk(c: Config, t: Tree, m: Store, id: nat, pid: Option<nat>): (Answer, Store)
    requires ValidTree(t)
  {
    var l := LocateDevice(c, t, id, m);
    if !l.Found? then (NoDevice(l), m)
    else if !WantsProcess(l.ctx, pid) then (DeviceOnly(l.ctx), m)
    else
      var (p, n) := LocateProcess(c, l.ctx, t, pid.value, m);
      (WithProcess(l.ctx, p), n)
  }

  datatype Inval = InvalDdt(dv: bool, id: nat) | InvalPdt(did: nat, pid: nat)

  predicate NamesDevice(cmd: Inval, id: nat) { cmd.InvalDdt? && (!cmd.dv || cmd.id == id) }

  predicate NamesProcess(cmd: Inval, id: nat, pid: nat) {
    NamesDevice(cmd, id) || (cmd.InvalPdt? && cmd.did == id && cmd.pid == pid)
  }

  function Invalidated(s: State, cmd: Inval): State {
    s.(dcs := Swept(s.dcs, id => NamesDevice(cmd, id)), pcs := Swept(s.pcs, (k: (nat, nat)) => NamesProcess(cmd, k.0, k.1)))
  }

  /** A request, accessed and dirty updates by other walks, or an edit of `ddtp`, the directories or
      the page tables followed by a command. */
  datatype Step =
    | Ask(id: nat, pid: Option<nat>, time: nat, slotD: nat, slotP: nat)
    | Updates(mem: Store)
    | Edit(tree: Tree, edited: Store, cmd: Inval)

  // ---------------------------------------------------------------- covering invalidations

  predicate HasDirectory(dc: DeviceContext) { dc.tc.pdtv && dc.fsc.mode != BARE }

  /** The device has a process directory, and the id the width of it. */
  predicate UsesDirectory(dc: DeviceContext, pid: nat) { HasDirectory(dc) && PidFits(dc, pid) }

  /** A walk for the process finds `pc` and has no bits left to set. */
  predicate Settled(c: Config, t: Tree, m: Store, id: nat, pid: nat, pc: ProcessContext) {
    ValidTree(t) &&
    var l := LocateDevice(c, t, id, m);
    l.Found? && UsesDirectory(l.ctx, pid) && LocateProcess(c, l.ctx, t, pid, m) == (Found(pc), m)
  }

  /** The command names every device and every process whose located context the edit changes. */
  ghost predicate Covered(c: Config, t: Tree, m: Store, t': Tree, m': Store, cmd: Inval)
    requires ValidTree(t) && ValidTree(t')
  {
    && (forall id: nat | IdFits(c, t', id) :: NamesDevice(cmd, id) || DeviceKept(c, t, m, t', m', id))
    && (forall id: nat, pid: nat, pc | IdFits(c, t', id) :: NamesProcess(cmd, id, pid) || ProcessKept(c, t, m, t', m', id, pid, pc))
  }

  /** The device locates what it located, if it was known. */
  predicate DeviceKept(c: Config, t: Tree, m: Store, t': Tree, m': Store, id: nat)
    requires ValidTree(t) && ValidTree(t')
  {
    IdFits(c, t, id) && (!LocateDevice(c, t, id, m).Found? || LocateDevice(c, t', id, m') == LocateDevice(c, t, id, m))
  }

  predicate ProcessKept(c: Config, t: Tree, m: Store, t': Tree, m': Store, id: nat, pid: nat, pc: ProcessContext) {
    IdFits(c, t, id) && (Settled(c, t, m, id, pid, pc) ==> Settled(c, t', m', id, pid, pc))
  }

  /** The ids have the widths that the tests before the walks check. */
  predicate Admitted(c: Config, t: Tree, m: Store, id: nat, pid: Option<nat>)
    requires ValidTree(t)
  {
    && IdFits(c, t, id)
    && var l := LocateDevice(c, t, id, m); l.Found? && WantsProcess(l.ctx, pid) ==> PidFits(l.ctx, pid.value)
  }

  ghost predicate Legal(c: Config, t: Tree, m: Store, steps: seq<Step>)
    requires ValidTree(t)
    decreases |steps|
  {
    steps == [] ||
    match steps[0]
    case Ask(id, pid, _, _, _) => Admitted(c, t, m, id, pid) && Legal(c, t, PlainAsk(c, t, m, id, pid).1, steps[1..])
    case Updates(n) => AdExtends(m, n) && Legal(c, t, n, steps[1..])
    case Edit(t', m', cmd) => ValidTree(t') && Covered(c, t, m, t', m', cmd) && Legal(c, t', m', steps[1..])
  }

  ghost function PlainRun(c: Config, t: Tree, m: Store, steps: seq<Step>): (seq<Answer>, Store)
    requires ValidTree(t) && Legal(c, t, m, steps)
    decreases |steps|
  {
    if steps == [] then ([], m)
    else match steps[0]
      case Ask(id, pid, _, _, _) =>
        var (a, n) := PlainAsk(c, t, m, id, pid);
        var (rest, end) := PlainRun(c, t, n, steps[1..]);
        ([a] + rest, end)
      case Updates(n) => PlainRun(c, t, n, steps[1..])
      case Edit(t', m', _) => PlainRun(c, t', m', steps[1..])
  }

  ghost function CachedRun(c: Config, s: State, steps: seq<Step>): (seq<Answer>, State)
    requires ValidTree(s.tree) && forall e | e in steps && e.Edit? :: ValidTree(e.tree)
    decreases |steps|
  {
    if steps == [] then ([], s)
    else match steps[0]
      case Ask(id, pid, time, slotD, slotP) =>
        var (a, s1) := CachedAsk(c, s, id, pid, time, slotD, slotP);
        var (rest, end) := CachedRun(c, s1, steps[1..]);
        ([a] + rest, end)
      case Updates(n) => CachedRun(c, s.(mem := n), steps[1..])
      case Edit(t', m', cmd) => CachedRun(c, Invalidated(s, cmd).(tree := t', mem := m'), steps[1..])
  }

  // ---------------------------------------------------------------- the caches stay right

  predicate DeviceEntryOk(c: Config, t: Tree, m: Store, e: Entry<nat, DeviceContext>) {
    e.valid && IdFits(c, t, e.key) ==> ValidTree(t) && LocateDevice(c, t, e.key, m) == Found(e.ctx)
  }

  predicate ProcessEntryOk(c: Config, t: Tree, m: Store, e: Entry<(nat, nat), ProcessContext>) {
    e.valid && IdFits(c, t, e.key.0) ==> Settled(c, t, m, e.key.0, e.key.1, e.ctx)
  }

  predicate CachesOk(c: Config, s: State) {
    && ValidTree(s.tree) && UniqueKeys(s.dcs) && UniqueKeys(s.pcs)
    && (forall i | 0 <= i < |s.dcs| :: DeviceEntryOk(c, s.tree, s.mem, s.dcs[i]))
    && (forall i | 0 <= i < |s.pcs| :: ProcessEntryOk(c, s.tree, s.mem, s.pcs[i]))
  }

  lemma SettledStable(c: Config, t: Tree, m: Store, n: Store, id: nat, pid: nat, pc: ProcessContext)
    requires Settled(c, t, m, id, pid, pc) && AdExtends(m, n)
    ensures Settled(c, t, n, id, pid, pc)
  {
    hide LocateDeviceFrom, LocateProcessFrom, UsesDirectory;
    LocateDeviceStableFrom(c, t, id, t.levels - 1, t.root * PAGE_SIZE, m, n);
    var dc := LocateDevice(c, t, id, m).ctx;
    ProcessStableFrom(c, dc, t, pid, ProcessLevels(dc) - 1, dc.fsc.ppn * PAGE_SIZE, m, n, pc);
  }

  lemma UpdatesKeepOk(c: Config, s: State, n: Store)
    requires CachesOk(c, s) && AdExtends(s.mem, n)
    ensures CachesOk(c, s.(mem := n))
  {
    hide LocateDevice, LocateProcess, UniqueKeys, Settled, IdFits;
    forall i | 0 <= i < |s.dcs| ensures DeviceEntryOk(c, s.tree, n, s.dcs[i]) {
      assert DeviceEntryOk(c, s.tree, s.mem, s.dcs[i]);
      DeviceStable(c, s.tree, s.dcs[i].key, s.mem, n);
    }
    forall i | 0 <= i < |s.pcs| ensures ProcessEntryOk(c, s.tree, n, s.pcs[i]) {
      var e := s.pcs[i];
      assert ProcessEntryOk(c, s.tree, s.mem, e);
      if e.valid && IdFits(c, s.tree, e.key.0) { SettledStable(c, s.tree, s.mem, n, e.key.0, e.key.1, e.ctx); }
    }
  }

  lemma DeviceStable(c: Config, t: Tree, id: nat, m: Store, n: Store)
    requires ValidTree(t) && SameFaults(m, n)
    ensures LocateDevice(c, t, id, n) == LocateDevice(c, t, id, m)
  {
    LocateDeviceStableFrom(c, t, id, t.levels - 1, t.root * PAGE_SIZE, m, n);
  }

  lemma EditKeepsOk(c: Config, s: State, t': Tree, m': Store, cmd: Inval)
    requires CachesOk(c, s) && ValidTree(t') && Covered(c, s.tree, s.mem, t', m', cmd)
    ensures CachesOk(c, Invalidated(s, cmd).(tree := t', mem := m'))
  {
    var s' := Invalidated(s, cmd);
    hide LocateDevice, LocateProcess, Settled, IdFits;
    forall i | 0 <= i < |s.dcs| ensures DeviceEntryOk(c, t', m', s'.dcs[i]) {
      var e := s.dcs[i];
      assert DeviceEntryOk(c, s.tree, s.mem, e);
      assert IdFits(c, t', e.key) ==> NamesDevice(cmd, e.key) || DeviceKept(c, s.tree, s.mem, t', m', e.key);
    }
    forall i | 0 <= i < |s.pcs| ensures ProcessEntryOk(c, t', m', s'.pcs[i]) {
      var e := s.pcs[i];
      assert ProcessEntryOk(c, s.tree, s.mem, e);
      assert IdFits(c, t', e.key.0) ==>
               NamesProcess(cmd, e.key.0, e.key.1) || ProcessKept(c, s.tree, s.mem, t', m', e.key.0, e.key.1, e.ctx);
    }
  }

  lemma FillKeepsOk(c: Config, s: State, id: nat, pid: nat, pc: ProcessContext, slot: nat)
    requires CachesOk(c, s) && Settled(c, s.tree, s.mem, id, pid, pc) && FirstOf(s.pcs, (id, pid)) == |s.pcs|
    ensures CachesOk(c, s.(pcs := Replaced(s.pcs, slot, (id, pid), pc)))
  {
    FillKeepsUnique(s.pcs, slot, (id, pid), pc);
    hide LocateDevice, Settled, UniqueKeys, FirstOf;
  }

  lemma AgingKeepsOk(c: Config, s: State, key: (nat, nat), time: nat)
    requires CachesOk(c, s)
    ensures CachesOk(c, s.(pcs := Aged(s.pcs, key, time)))
  {
    hide LocateDevice, Settled;
  }

  /** A hit or a walk: the same context, the same memory, and caches that are still right. */
  lemma ProcessAskIsWalk(c: Config, s: State, dc: DeviceContext, id: nat, pid: nat, time: nat, slot: nat)
    requires CachesOk(c, s) && LocateDevice(c, s.tree, id, s.mem) == Found(dc) && IdFits(c, s.tree, id) && UsesDirectory(dc, pid)
    ensures var (p, s') := CachedProcess(c, s, dc, id, pid, time, slot);
            (p, s'.mem) == LocateProcess(c, dc, s.tree, pid, s.mem) && CachesOk(c, s')
  {
    var (p, n) := LocateProcess(c, dc, s.tree, pid, s.mem);
    var j := FirstOf(s.pcs, (id, pid));
    if j < |s.pcs| {
      assert ProcessEntryOk(c, s.tree, s.mem, s.pcs[j]);
      AgingKeepsOk(c, s, (id, pid), time);
    } else {
      ProcessWalkSettles(c, s, dc, id, pid);
      UpdatesKeepOk(c, s, n);
      if p.Found? { FillKeepsOk(c, s.(mem := n), id, pid, p.ctx, slot); }
    }
    hide LocateDevice, LocateProcess, CachesOk, FirstOf, IdFits, UsesDirectory;
  }

  lemma ProcessWalkSettles(c: Config, s: State, dc: DeviceContext, id: nat, pid: nat)
    requires ValidTree(s.tree) && LocateDevice(c, s.tree, id, s.mem) == Found(dc) && UsesDirectory(dc, pid)
    ensures var (p, n) := LocateProcess(c, dc, s.tree, pid, s.mem);
            AdExtends(s.mem, n) && (p.Found? ==> Settled(c, s.tree, n, id, pid, p.ctx))
  {
    var i, a := ProcessLevels(dc) - 1, dc.fsc.ppn * PAGE_SIZE;
    ProcessExtendsFrom(c, dc, s.tree, pid, i, a, s.mem);
    ProcessFinishesFrom(c, dc, s.tree, pid, i, a, s.mem);
    DeviceStable(c, s.tree, id, s.mem, LocateProcess(c, dc, s.tree, pid, s.mem).1);
    hide LocateDevice, LocateProcessFrom, UsesDirectory;
  }

  lemma AskIsWalk(c: Config, s: State, id: nat, pid: Option<nat>, time: nat, slotD: nat, slotP: nat)
    requires CachesOk(c, s) && Admitted(c, s.tree, s.mem, id, pid)
    ensures var (a, s') := CachedAsk(c, s, id, pid, time, slotD, slotP);
            && (a, s'.mem) == PlainAsk(c, s.tree, s.mem, id, pid) && CachesOk(c, s') && s'.tree == s.tree
  {
    hide LocateDevice, LocateProcess, Settled, FirstOf, CachedProcess, IdFits, PidFits;
    var i := FirstOf(s.dcs, id);
    if i < |s.dcs| { assert DeviceEntryOk(c, s.tree, s.mem, s.dcs[i]); }
    var l := LocateDevice(c, s.tree, id, s.mem);
    if l.Found? {
      var s1 := s.(dcs := if i < |s.dcs| then Aged(s.dcs, id, time) else Replaced(s.dcs, slotD, id, l.ctx));
      if i == |s.dcs| { FillKeepsUnique(s.dcs, slotD, id, l.ctx); }
      assert CachesOk(c, s1);
      if WantsProcess(l.ctx, pid) {
        ProcessAskIsWalk(c, s1, l.ctx, id, pid.value, time, slotP);
        ProcessKeepsTree(c, s1, l.ctx, id, pid.value, time, slotP);
      }
    }
  }

  lemma ProcessKeepsTree(c: Config, s: State, dc: DeviceContext, id: nat, pid: nat, time: nat, slot: nat)
    ensures CachedProcess(c, s, dc, id, pid, time, slot).1.tree == s.tree
  {
  }

  lemma LegalTrees(c: Config, t: Tree, m: Store, steps: seq<Step>)
    requires ValidTree(t) && Legal(c, t, m, steps)
    ensures forall e | e in steps && e.Edit? :: ValidTree(e.tree)
    decreases |steps|
  {
    if steps != [] {
      match steps[0]
      case Ask(id, pid, _, _, _) => LegalTrees(c, t, PlainAsk(c, t, m, id, pid).1, steps[1..]);
      case Updates(n) => LegalTrees(c, t, n, steps[1..]);
      case Edit(t', m', cmd) => LegalTrees(c, t', m', steps[1..]);
    }
  }

  /** Over every run with covering invalidations, requests are answered alike with the directory caches
      and without, page-table updates included, and no key is ever held twice. */
  lemma {:induction false} CachedRunIsPlainRun(c: Config, s: State, steps: seq<Step>)
    requires CachesOk(c, s) && Legal(c, s.tree, s.mem, steps)
    ensures (LegalTrees(c, s.tree, s.mem, steps);
            var (answers, s') := CachedRun(c, s, steps);
            (answers, s'.mem) == PlainRun(c, s.tree, s.mem, steps) && CachesOk(c, s'))
    decreases |steps|
  {
    LegalTrees(c, s.tree, s.mem, steps);
    if steps != [] {
      hide CachesOk, Covered, CachedAsk, PlainAsk;
      match steps[0]
      case Ask(id, pid, time, slotD, slotP) =>
        AskIsWalk(c, s, id, pid, time, slotD, slotP);
        CachedRunIsPlainRun(c, CachedAsk(c, s, id, pid, time, slotD, slotP).1, steps[1..]);
      case Updates(n) =>
        UpdatesKeepOk(c, s, n);
        CachedRunIsPlainRun(c, s.(mem := n), steps[1..]);
      case Edit(t', m', cmd) =>
        EditKeepsOk(c, s, t', m', cmd);
        CachedRunIsPlainRun(c, Invalidated(s, cmd).(tree := t', mem := m'), steps[1..]);
    }
  }

  lemma EmptyCachesOk(c: Config, s: State)
    requires ValidTree(s.tree) && (forall i | 0 <= i < |s.dcs| :: !s.dcs[i].valid) && (forall i | 0 <= i < |s.pcs| :: !s.pcs[i].valid)
    ensures CachesOk(c, s)
  {
  }
}
