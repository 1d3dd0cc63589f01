/**
 * Subscribe, then snapshot: capture is on, events queue up, /proc is listed and then read one
 * pid at a time while processes come and go, the table is seeded, and the queue is drained.
 */
module Startup {
  import opened Types
  import opened Events
  import opened TableSpec
  import opened TableProps
  import opened PlainTable
  import opened TableEffects
  import K = Kernel

  /** ReadDir from pid cursor on; then per pid first stat, then cgroup; then Seed and the event loop. */
  datatype Phase = Listing(cursor: nat) | Reading | Statted(info: ProcInfo) | Consuming

  /**
   * names: pids listed and not read yet; found: the records read. native: resident entries
   * made by seed, fork or exec; seeded: those the seed made.
   */
  datatype World = World(
    k: K.Kernel, phase: Phase, names: seq<Uint32>, found: seq<ProcInfo>,
    table: Table, native: set<Guid>, seeded: set<Guid>)

  datatype Step =
    | Happen(d: K.Deed)
    | ListPid(pid: Uint32)
    | ListEnd(order: seq<Uint32>)
    | ReadStat(info: ProcInfo)
    | ReadCgroup(cgroup: Uint64)
    | SeedTable
    | HandleNext(r1: ReadResult, r2: ReadResult, now: int)
    | SweepTable(at: int)

  function Bits(found: seq<ProcInfo>, scope: Uint64 -> bool): (bits: seq<bool>)
    ensures |bits| == |found|
    ensures forall i :: 0 <= i < |found| ==> bits[i] == scope(found[i].cgroup)
  {
    seq(|found|, i requires 0 <= i < |found| => scope(found[i].cgroup))
  }

  /** What reading /proc/<pid>/cgroup and resolving the path can give; 0 if it fails. */
  predicate CgroupAnswer(k: K.Kernel, pid: Uint32, cgroup: Uint64) {
    if pid !in k.procs then cgroup == 0
    else cgroup == k.procs[pid].cgroup || (cgroup == 0 && !k.procs[pid].live)
  }

  predicate StatAnswer(k: K.Kernel, pid: Uint32, info: ProcInfo) {
    pid in k.procs ==> info.pid == pid && GuidOf(info.pid, info.start) == k.procs[pid].guid
  }

  ghost predicate Enabled(w: World, st: Step) {
    match st
    case Happen(d) => K.Can(w.k, d)
    case ListPid(pid) =>
      && w.phase.Listing? && pid in w.k.procs && w.phase.cursor <= pid
      && forall p :: p in w.k.procs && w.phase.cursor <= p ==> pid <= p
    case ListEnd(order) =>
      && w.phase.Listing? && multiset(order) == multiset(w.names)
      && forall p :: p in w.k.procs ==> p < w.phase.cursor
    case ReadStat(info) => w.phase.Reading? && w.names != [] && StatAnswer(w.k, w.names[0], info)
    case ReadCgroup(cgroup) => w.phase.Statted? && w.names != [] && CgroupAnswer(w.k, w.names[0], cgroup)
    case SeedTable => w.phase.Reading? && w.names == []
    case HandleNext(r1, r2, now) => w.phase.Consuming? && w.k.queue != [] && OpOk(HandleOp(w.k.queue[0], r1, r2, now))
    case SweepTable(_) => w.phase.Consuming?
  }

  /** A fork or exec of a process without an entry makes one. */
  function Made(t: Table, ev: Event): set<Guid> {
    if !ev.kind.KindExit? && Find(t.rows, ev.Self()).None? then {ev.Self()} else {}
  }

  ghost function Apply(w: World, cfg: Config, scope: Uint64 -> bool, st: Step): World
    requires Enabled(w, st)
  {
    match st
    case Happen(d) => w.(k := K.Do(w.k, scope, d))
    case ListPid(pid) => w.(phase := Listing(pid + 1), names := w.names + [pid])
    case ListEnd(order) => w.(phase := Reading, names := order)
    case ReadStat(info) => if w.names[0] in w.k.procs then w.(phase := Statted(info)) else w.(names := w.names[1..])
    case ReadCgroup(cgroup) =>
      w.(phase := Reading, names := w.names[1..], found := w.found + [w.phase.info.(cgroup := cgroup)])
    case SeedTable =>
      var t := Seed(w.table, cfg, w.found, Bits(w.found, scope)).table;
      w.(phase := Consuming, table := t, native := Keys(t.rows), seeded := Keys(t.rows))
    case HandleNext(r1, r2, now) =>
      var ev := w.k.queue[0];
      var t := Handle(w.table, cfg, ev, r1, r2, now).table;
      w.(k := K.Pop(w.k), table := t, native := (w.native + Made(w.table, ev)) * Keys(t.rows))
    case SweepTable(now) =>
      var t := Sweep(w.table, cfg, now).table;
      w.(table := t, native := w.native * Keys(t.rows))
  }

  ghost predicate Run(cfg: Config, scope: Uint64 -> bool, ws: seq<World>, steps: seq<Step>) {
    && |ws| == |steps| + 1
    && K.Begins(ws[0].k, scope) && ws[0] == World(ws[0].k, Listing(0), [], [], EMPTY, {}, {})
    && forall i :: 0 <= i < |steps| ==> Enabled(ws[i], steps[i]) && ws[i + 1] == Apply(ws[i], cfg, scope, steps[i])
  }

  // ---------------------------------------------------------------- claims

  /** Every running captured process has an entry, or its fork event is still queued. */
  ghost predicate NoGap(w: World) {
    forall g :: K.Live(w.k, g) && g in w.k.mine ==> Find(w.table.rows, g).Some? || K.Queued(w.k.queue, KindFork, g)
  }

  ghost predicate Accounted(k: K.Kernel, g: Guid) {
    K.Live(k, g) || K.Queued(k.queue, KindExit, g)
  }

  /** An entry made by seed, fork or exec that is not marked exited. */
  ghost predicate Open(w: World, g: Guid) {
    g in w.native && Find(w.table.rows, g).Some? && Find(w.table.rows, g).value.exitedAt.None?
  }

  /** Such an entry is of a running process or of one whose exit event is still queued. */
  ghost predicate NoGhost(w: World) {
    forall g :: Open(w, g) ==> Accounted(w.k, g)
  }

  /** A seeded identity that was not of a captured process, or had exited before capture began. */
  predicate Bad(w: World, g: Guid) {
    g in w.seeded && (g !in w.k.mine || g in w.k.stale)
  }

  /** The record is of a captured process that had not exited before capture began. */
  predicate Genuine(k: K.Kernel, info: ProcInfo) {
    GuidOf(info.pid, info.start) in k.mine && GuidOf(info.pid, info.start) !in k.stale
  }

  /** Every scanned record that passes the scope test is genuine. */
  ghost predicate Clean(w: World, scope: Uint64 -> bool) {
    forall i :: 0 <= i < |w.found| && scope(w.found[i].cgroup) ==> Genuine(w.k, w.found[i])
  }

  // ------------------------------------------------------------- the scan

  ghost predicate FoundIn(found: seq<ProcInfo>, scope: Uint64 -> bool, g: Guid) {
    exists i :: 0 <= i < |found| && IsOf(found[i], g) && scope(found[i].cgroup)
  }

  predicate IsOf(info: ProcInfo, g: Guid) {
    GuidOf(info.pid, info.start) == g
  }

  /** The scan has met the process, holds it, or is still to come to its pid. */
  ghost predicate Ahead(w: World, scope: Uint64 -> bool, g: Guid) {
    match w.phase
    case Listing(cursor) => cursor <= g.pid || g.pid in w.names
    case Reading => g.pid in w.names || FoundIn(w.found, scope, g)
    case Statted(info) => w.names != [] && (g.pid in w.names[1..] || FoundIn(w.found, scope, g) || IsOf(info, g))
    case Consuming => true
  }

  /** An accepted record of an identity that is not captured was torn: that process is gone. */
  ghost predicate TornIsGone(k: K.Kernel, scope: Uint64 -> bool, info: ProcInfo) {
    && GuidOf(info.pid, info.start) in k.ever
    && (scope(info.cgroup) && GuidOf(info.pid, info.start) !in k.mine ==> !K.Live(k, GuidOf(info.pid, info.start)))
  }

  ghost predicate AllTornGone(w: World, scope: Uint64 -> bool) {
    forall i :: 0 <= i < |w.found| ==> TornIsGone(w.k, scope, w.found[i])
  }

  ghost predicate ScanOk(w: World, scope: Uint64 -> bool) {
    && w.table == EMPTY && w.native == {} && w.seeded == {}
    && (forall g :: g in w.k.mine && g !in w.k.stale ==> Accounted(w.k, g))
    && (forall g :: K.Live(w.k, g) && g in w.k.mine && g in w.k.born ==> K.Queued(w.k.queue, KindFork, g))
    && (forall g :: K.Live(w.k, g) && g in w.k.mine && g !in w.k.born ==> Ahead(w, scope, g))
    && AllTornGone(w, scope)
    && (w.phase.Listing? ==> w.found == [])
    && (w.phase.Statted? ==>
          && w.names != [] && w.phase.info.pid == w.names[0]
          && GuidOf(w.phase.info.pid, w.phase.info.start) in w.k.ever)
  }

  // ------------------------------------------------------------ the table

  ghost predicate MarkedGone(w: World) {
    forall g :: Find(w.table.rows, g).Some? && Find(w.table.rows, g).value.exitedAt.Some? ==>
      g in w.k.ever && !K.Live(w.k, g)
  }

  /** A bad identity stays open for ever: it does not run and no event of it will come. */
  ghost predicate Haunts(w: World, g: Guid) {
    Open(w, g) && g in w.k.ever && !K.Live(w.k, g)
  }

  /** Whatever records a parent was made by seed, fork or exec; a row read from /proc records none. */
  ghost predicate AllNative(w: World) {
    forall g :: Find(w.table.rows, g).Some? && Find(w.table.rows, g).value.parentGuid.Some? ==> g in w.native
  }

  ghost predicate TableOk(w: World) {
    && w.native <= Keys(w.table.rows) && AllNative(w)
    && NoGap(w)
    && MarkedGone(w)
    && (forall g :: Open(w, g) && !Bad(w, g) ==> g in w.k.mine && Accounted(w.k, g))
    && (forall g :: Bad(w, g) ==> Haunts(w, g))
  }

  ghost predicate Inv(w: World, scope: Uint64 -> bool) {
    && K.KernelOk(w.k, scope)
    && (if w.phase.Consuming? then TableOk(w) && SeededFound(w, scope) else ScanOk(w, scope))
  }

  /** The seed made exactly the identities of the accepted records resident. */
  ghost predicate SeededFound(w: World, scope: Uint64 -> bool) {
    forall g :: g in w.seeded <==> FoundIn(w.found, scope, g)
  }

  // ------------------------------------------------------ kernel deeds

  lemma HappenScan(w: World, cfg: Config, scope: Uint64 -> bool, d: K.Deed)
    requires K.KernelOk(w.k, scope) && ScanOk(w, scope) && Enabled(w, Happen(d))
    ensures ScanOk(Apply(w, cfg, scope, Happen(d)), scope)
  {
    var w' := Apply(w, cfg, scope, Happen(d));
    K.DeedMoves(w.k, scope, d);
    K.DeedOk(w.k, scope, d);
    forall g | g in w'.k.mine && g !in w'.k.stale ensures Accounted(w'.k, g) { HappenAccounts(w, scope, d, g); }
    forall g | K.Live(w'.k, g) && g in w'.k.mine && g !in w'.k.born ensures Ahead(w', scope, g) {
      assert K.Live(w.k, g);
      assert Ahead(w, scope, g);
    }
    forall i | 0 <= i < |w'.found| ensures TornIsGone(w'.k, scope, w'.found[i]) {
      assert TornIsGone(w.k, scope, w.found[i]);
    }
  }

  /** A captured process stays running, or its exit is queued; a new one runs. */
  lemma HappenAccounts(w: World, scope: Uint64 -> bool, d: K.Deed, g: Guid)
    requires K.KernelOk(w.k, scope) && K.Can(w.k, d) && g in K.Do(w.k, scope, d).mine
    requires g in w.k.mine ==> Accounted(w.k, g)
    ensures Accounted(K.Do(w.k, scope, d), g)
  {
    K.DeedMoves(w.k, scope, d);
    K.LiveAfter(w.k, scope, d, g);
  }

  lemma HappenTable(w: World, cfg: Config, scope: Uint64 -> bool, d: K.Deed)
    requires K.KernelOk(w.k, scope) && TableOk(w) && Enabled(w, Happen(d))
    ensures TableOk(Apply(w, cfg, scope, Happen(d)))
  {
    var w' := Apply(w, cfg, scope, Happen(d));
    K.DeedMoves(w.k, scope, d);
    K.DeedOk(w.k, scope, d);
    forall g | Bad(w', g) ensures Haunts(w', g) { assert Bad(w, g); }
    forall g | Open(w', g) && !Bad(w', g) ensures g in w'.k.mine && Accounted(w'.k, g) {
      assert Open(w, g) && !Bad(w, g);
      HappenAccounts(w, scope, d, g);
    }
  }

  // -------------------------------------------------------- scan steps

  lemma ListScan(w: World, cfg: Config, scope: Uint64 -> bool, st: Step)
    requires K.KernelOk(w.k, scope) && ScanOk(w, scope) && Enabled(w, st) && (st.ListPid? || st.ListEnd?)
    ensures ScanOk(Apply(w, cfg, scope, st), scope)
  {
    var w' := Apply(w, cfg, scope, st);
    forall g | K.Live(w'.k, g) && g in w'.k.mine && g !in w'.k.born ensures Ahead(w', scope, g) {
      assert Ahead(w, scope, g);
      if st.ListEnd? { SameMembers(st.order, w.names, g.pid); }
    }
  }

  lemma SameMembers(order: seq<Uint32>, names: seq<Uint32>, pid: Uint32)
    requires multiset(order) == multiset(names)
    ensures pid in order <==> pid in names
  {
    assert pid in order <==> pid in multiset(order);
    assert pid in names <==> pid in multiset(names);
  }

  lemma StatScan(w: World, cfg: Config, scope: Uint64 -> bool, info: ProcInfo)
    requires K.KernelOk(w.k, scope) && ScanOk(w, scope) && Enabled(w, ReadStat(info))
    ensures ScanOk(Apply(w, cfg, scope, ReadStat(info)), scope)
  {
    var w' := Apply(w, cfg, scope, ReadStat(info));
    assert w.names == [w.names[0]] + w.names[1..];
    forall g | K.Live(w'.k, g) && g in w'.k.mine && g !in w'.k.born ensures Ahead(w', scope, g) {
      assert Ahead(w, scope, g);
    }
  }

  lemma FoundMore(found: seq<ProcInfo>, info: ProcInfo, scope: Uint64 -> bool, g: Guid)
    ensures FoundIn(found + [info], scope, g) <==> FoundIn(found, scope, g) || (IsOf(info, g) && scope(info.cgroup))
  {
    var more := found + [info];
    if FoundIn(found, scope, g) {
      var i :| 0 <= i < |found| && IsOf(found[i], g) && scope(found[i].cgroup);
      assert IsOf(more[i], g);
    }
    if IsOf(info, g) && scope(info.cgroup) { assert IsOf(more[|found|], g); }
  }

  lemma CgroupScan(w: World, cfg: Config, scope: Uint64 -> bool, cgroup: Uint64)
    requires K.KernelOk(w.k, scope) && ScanOk(w, scope) && Enabled(w, ReadCgroup(cgroup))
    ensures ScanOk(Apply(w, cfg, scope, ReadCgroup(cgroup)), scope)
  {
    var w' := Apply(w, cfg, scope, ReadCgroup(cgroup));
    var info := w.phase.info.(cgroup := cgroup);
    forall g | K.Live(w'.k, g) && g in w'.k.mine && g !in w'.k.born ensures Ahead(w', scope, g) {
      assert Ahead(w, scope, g);
      FoundMore(w.found, info, scope, g);
    }
    forall i | 0 <= i < |w'.found| ensures TornIsGone(w'.k, scope, w'.found[i]) {
      if i < |w.found| { assert TornIsGone(w.k, scope, w.found[i]); }
    }
  }

  // ------------------------------------------------------- table steps

  /** Every step keeps the table's structure and never takes an eviction back. */
  lemma StepRoom(w: World, cfg: Config, scope: Uint64 -> bool, st: Step)
    requires Core(w.table, cfg) && cfg.maxEntries >= 1 && Enabled(w, st)
    ensures var t := Apply(w, cfg, scope, st).table;
            Core(t, cfg) && w.table.stats.evictedLRU <= t.stats.evictedLRU
  {
    match st
    case SeedTable => StepEvolves(w.table, cfg, SeedOp(w.found, Bits(w.found, scope)));
    case HandleNext(r1, r2, now) => StepEvolves(w.table, cfg, HandleOp(w.k.queue[0], r1, r2, now));
    case SweepTable(now) => StepEvolves(w.table, cfg, SweepOp(now));
    case _ =>
  }

  lemma SeedAccepts(w: World, cfg: Config, scope: Uint64 -> bool, g: Guid)
    requires w.table == EMPTY && Enabled(w, SeedTable) && Roomy(w.table, Apply(w, cfg, scope, SeedTable).table)
    ensures var r := Find(Apply(w, cfg, scope, SeedTable).table.rows, g);
            (r.Some? <==> FoundIn(w.found, scope, g)) && (r.Some? ==> r.value.exitedAt.None?)
  {
    var bits := Bits(w.found, scope);
    SeedFind(cfg, w.found, bits, |w.found|, g);
    if FoundIn(w.found, scope, g) {
      var i :| 0 <= i < |w.found| && IsOf(w.found[i], g) && scope(w.found[i].cgroup);
      assert bits[i] && GuidOf(w.found[i].pid, w.found[i].start) == g;
    }
    if Accepted(w.found, bits, |w.found|, g) {
      var i :| 0 <= i < |w.found| && bits[i] && GuidOf(w.found[i].pid, w.found[i].start) == g;
      assert IsOf(w.found[i], g) && scope(w.found[i].cgroup);
    }
  }

  lemma SeedOk(w: World, cfg: Config, scope: Uint64 -> bool)
    requires K.KernelOk(w.k, scope) && ScanOk(w, scope) && Enabled(w, SeedTable)
    requires Roomy(w.table, Apply(w, cfg, scope, SeedTable).table)
    ensures TableOk(Apply(w, cfg, scope, SeedTable)) && SeededFound(Apply(w, cfg, scope, SeedTable), scope)
  {
    var w' := Apply(w, cfg, scope, SeedTable);
    forall g ensures var r := Find(w'.table.rows, g);
                     (r.Some? <==> FoundIn(w.found, scope, g)) && (r.Some? ==> r.value.exitedAt.None?)
    {
      SeedAccepts(w, cfg, scope, g);
    }
    forall g | K.Live(w'.k, g) && g in w'.k.mine && g !in w'.k.born ensures Find(w'.table.rows, g).Some? {
      assert Ahead(w, scope, g);
    }
    forall g | Bad(w', g) ensures Haunts(w', g) {
      assert Find(w'.table.rows, g).Some?;
      var i :| 0 <= i < |w.found| && IsOf(w.found[i], g) && scope(w.found[i].cgroup);
      assert TornIsGone(w.k, scope, w.found[i]);
    }
  }

  /** Sweep on lookups: entries that expired are gone, all others are as before. */
  ghost predicate Sweeps(w: World, w': World, cutoff: int) {
    && w'.k == w.k && w'.seeded == w.seeded && w'.native == w.native * Keys(w'.table.rows)
    && forall g :: Find(w'.table.rows, g) ==
                   if Find(w.table.rows, g).Some? && Expired(Find(w.table.rows, g).value, cutoff) then None
                   else Find(w.table.rows, g)
  }

  lemma SweepLookups(rows: seq<Row>, cutoff: int)
    requires Unique(rows)
    ensures forall g :: Find(Fresh(rows, cutoff), g) ==
                        if Find(rows, g).Some? && Expired(Find(rows, g).value, cutoff) then None else Find(rows, g)
  {
    forall g ensures Find(Fresh(rows, cutoff), g) ==
                     if Find(rows, g).Some? && Expired(Find(rows, g).value, cutoff) then None else Find(rows, g)
    {
      FindFresh(rows, cutoff, g);
    }
  }

  lemma SweepOpen(w: World, w': World, cutoff: int, g: Guid)
    requires Sweeps(w, w', cutoff) && w.native <= Keys(w.table.rows)
    ensures Open(w', g) <==> Open(w, g)
  {
  }

  lemma SweepsOk(w: World, w': World, cutoff: int)
    requires TableOk(w) && MarkedGone(w) && Sweeps(w, w', cutoff)
    ensures TableOk(w')
  {
    forall g ensures Open(w', g) <==> Open(w, g) { SweepOpen(w, w', cutoff, g); }
    forall g | Bad(w', g) ensures Haunts(w', g) { assert Bad(w, g) && Haunts(w, g); }
    forall g | Open(w', g) && !Bad(w', g) ensures g in w'.k.mine && Accounted(w'.k, g) {
      assert Open(w, g) && !Bad(w, g);
    }
  }

  lemma SweepOk(w: World, cfg: Config, scope: Uint64 -> bool, now: int)
    requires TableOk(w) && Unique(w.table.rows) && Enabled(w, SweepTable(now))
    ensures TableOk(Apply(w, cfg, scope, SweepTable(now)))
  {
    var w' := Apply(w, cfg, scope, SweepTable(now));
    var cutoff := now - cfg.exitTTL;
    assert w'.table.rows == Fresh(w.table.rows, cutoff);
    SweepLookups(w.table.rows, cutoff);
    assert Sweeps(w, w', cutoff);
    SweepsOk(w, w', cutoff);
  }

  /** The effect of the next event on one identity. */
  ghost predicate Affects(w: World, w': World, g: Guid)
    requires w.k.queue != []
  {
    var ev := w.k.queue[0];
    var before, after := Find(w.table.rows, g), Find(w'.table.rows, g);
    if g == ev.Self() then OwnLookup(ev, before, after) else SameOrNew(before, after)
  }

  lemma HandleAffects(w: World, cfg: Config, scope: Uint64 -> bool, st: Step, g: Guid)
    requires st.HandleNext? && Enabled(w, st) && Core(w.table, cfg) && cfg.maxEntries >= 1
    requires Roomy(w.table, Apply(w, cfg, scope, st).table)
    ensures Affects(w, Apply(w, cfg, scope, st), g)
  {
    HandleFind(w.table, cfg, w.k.queue[0], st.r1, st.r2, st.now, g);
  }

  /** What Handle leaves to prove, with the table reduced to its lookups. */
  ghost predicate Handles(w: World, w': World, scope: Uint64 -> bool) {
    && K.KernelOk(w.k, scope) && TableOk(w)
    && w.k.queue != [] && w'.k == K.Pop(w.k) && w'.seeded == w.seeded
    && w'.native == (w.native + Made(w.table, w.k.queue[0])) * Keys(w'.table.rows)
    && (forall g :: Affects(w, w', g))
  }

  lemma HandleNoGap(w: World, w': World, scope: Uint64 -> bool)
    requires Handles(w, w', scope)
    ensures NoGap(w')
  {
    forall g | K.Live(w'.k, g) && g in w'.k.mine
      ensures Find(w'.table.rows, g).Some? || K.Queued(w'.k.queue, KindFork, g)
    {
      assert K.Live(w.k, g);
      assert Affects(w, w', g);
      K.QueuedPop(w.k.queue, KindFork, g);
    }
  }

  lemma HandleMarks(w: World, w': World, scope: Uint64 -> bool)
    requires Handles(w, w', scope)
    ensures MarkedGone(w')
  {
    assert K.EventOk(w.k, 0);
    forall g | Find(w'.table.rows, g).Some? && Find(w'.table.rows, g).value.exitedAt.Some?
      ensures g in w'.k.ever && !K.Live(w'.k, g)
    {
      assert Affects(w, w', g);
      assert K.Live(w'.k, g) <==> K.Live(w.k, g);
    }
  }

  lemma HandleNative(w: World, w': World, scope: Uint64 -> bool)
    requires Handles(w, w', scope)
    ensures AllNative(w')
  {
    forall g | Find(w'.table.rows, g).Some? && Find(w'.table.rows, g).value.parentGuid.Some? ensures g in w'.native {
      assert Affects(w, w', g);
    }
  }

  lemma HandleOpen(w: World, w': World, scope: Uint64 -> bool, g: Guid)
    requires Handles(w, w', scope) && Open(w', g) && !Bad(w', g)
    ensures g in w'.k.mine && Accounted(w'.k, g)
  {
    var ev := w.k.queue[0];
    assert K.EventOk(w.k, 0);
    assert Affects(w, w', g);
    if g == ev.Self() {
      K.PopOk(w.k, scope);
    } else {
      assert Open(w, g) && !Bad(w, g);
      K.QueuedPop(w.k.queue, KindExit, g);
    }
    assert K.Live(w'.k, g) <==> K.Live(w.k, g);
  }

  lemma HandleHaunts(w: World, w': World, scope: Uint64 -> bool, g: Guid)
    requires Handles(w, w', scope) && Bad(w', g)
    ensures Haunts(w', g)
  {
    assert K.EventOk(w.k, 0);
    assert Bad(w, g) && Haunts(w, g);
    assert Affects(w, w', g);
    assert K.Live(w'.k, g) <==> K.Live(w.k, g);
  }

  lemma HandleOk(w: World, w': World, scope: Uint64 -> bool)
    requires Handles(w, w', scope)
    ensures TableOk(w')
  {
    HandleNoGap(w, w', scope);
    HandleMarks(w, w', scope);
    HandleNative(w, w', scope);
    forall g | Open(w', g) && !Bad(w', g) ensures g in w'.k.mine && Accounted(w'.k, g) { HandleOpen(w, w', scope, g); }
    forall g | Bad(w', g) ensures Haunts(w', g) { HandleHaunts(w, w', scope, g); }
  }

  // ------------------------------------------------------------------ runs

  lemma ScanStep(w: World, cfg: Config, scope: Uint64 -> bool, st: Step)
    requires K.KernelOk(w.k, scope) && ScanOk(w, scope) && !w.phase.Consuming? && Enabled(w, st)
    requires Roomy(w.table, Apply(w, cfg, scope, st).table)
    ensures Inv(Apply(w, cfg, scope, st), scope)
  {
    match st
    case Happen(d) => HappenScan(w, cfg, scope, d); K.DeedOk(w.k, scope, d);
    case ListPid(_) => ListScan(w, cfg, scope, st);
    case ListEnd(_) => ListScan(w, cfg, scope, st);
    case ReadStat(info) => StatScan(w, cfg, scope, info);
    case ReadCgroup(cgroup) => CgroupScan(w, cfg, scope, cgroup);
    case SeedTable => SeedOk(w, cfg, scope);
  }

  lemma ConsumeStep(w: World, cfg: Config, scope: Uint64 -> bool, st: Step)
    requires K.KernelOk(w.k, scope) && TableOk(w) && SeededFound(w, scope) && w.phase.Consuming? && Enabled(w, st)
    requires Core(w.table, cfg) && cfg.maxEntries >= 1 && Roomy(w.table, Apply(w, cfg, scope, st).table)
    ensures Inv(Apply(w, cfg, scope, st), scope)
  {
    var w' := Apply(w, cfg, scope, st);
    match st
    case Happen(d) => HappenTable(w, cfg, scope, d); K.DeedOk(w.k, scope, d);
    case HandleNext(_, _, _) =>
      forall g ensures Affects(w, w', g) { HandleAffects(w, cfg, scope, st, g); }
      K.PopOk(w.k, scope);
      HandleOk(w, w', scope);
    case SweepTable(now) => SweepOk(w, cfg, scope, now);
  }

  ghost predicate Holds(w: World, cfg: Config, scope: Uint64 -> bool) {
    Core(w.table, cfg) && (w.table.stats.evictedLRU == 0 ==> Inv(w, scope))
  }

  lemma BeginsHolds(w: World, cfg: Config, scope: Uint64 -> bool)
    requires K.Begins(w.k, scope) && w == World(w.k, Listing(0), [], [], EMPTY, {}, {}) && cfg.maxEntries >= 1
    ensures Holds(w, cfg, scope)
  {
    RunInvariant(cfg, []);
    K.BeginsOk(w.k, scope);
  }

  lemma StepHolds(w: World, cfg: Config, scope: Uint64 -> bool, st: Step)
    requires Holds(w, cfg, scope) && cfg.maxEntries >= 1 && Enabled(w, st)
    ensures Holds(Apply(w, cfg, scope, st), cfg, scope)
  {
    StepRoom(w, cfg, scope, st);
    if Apply(w, cfg, scope, st).table.stats.evictedLRU == 0 {
      if w.phase.Consuming? {
        ConsumeStep(w, cfg, scope, st);
      } else {
        ScanStep(w, cfg, scope, st);
      }
    }
  }

  lemma {:induction false} RunHolds(cfg: Config, scope: Uint64 -> bool, ws: seq<World>, steps: seq<Step>, k: nat)
    requires Run(cfg, scope, ws, steps) && cfg.maxEntries >= 1 && k < |ws|
    ensures Holds(ws[k], cfg, scope)
  {
    if k == 0 {
      BeginsHolds(ws[0], cfg, scope);
    } else {
      RunHolds(cfg, scope, ws, steps, k - 1);
      assert ws[k - 1 + 1] == Apply(ws[k - 1], cfg, scope, steps[k - 1]);
      StepHolds(ws[k - 1], cfg, scope, steps[k - 1]);
    }
  }

  /**
   * At every point after seeding, while nothing was evicted for space: each running captured
   * process has an entry or its fork event is queued, even if reads of /proc were torn; and
   * there is no ghost exactly if every accepted record of the scan is genuine.
   */
  lemma NoGapNoGhost(cfg: Config, scope: Uint64 -> bool, ws: seq<World>, steps: seq<Step>, k: nat)
    requires Run(cfg, scope, ws, steps) && cfg.maxEntries >= 1 && k < |ws|
    requires ws[k].phase.Consuming? && ws[k].table.stats.evictedLRU == 0
    ensures NoGap(ws[k]) && AllNative(ws[k])
    ensures NoGhost(ws[k]) <==> Clean(ws[k], scope)
  {
    var w := ws[k];
    RunHolds(cfg, scope, ws, steps, k);
    CleanMeans(w, scope);
    forall g | Bad(w, g) ensures !NoGhost(w) {
      assert Haunts(w, g);
      assert !K.Queued(w.k.queue, KindExit, g) by { NoEvent(w.k, scope, g); }
    }
  }

  lemma CleanMeans(w: World, scope: Uint64 -> bool)
    requires SeededFound(w, scope)
    ensures Clean(w, scope) <==> forall g :: g in w.seeded ==> !Bad(w, g)
  {
    forall i | 0 <= i < |w.found| && scope(w.found[i].cgroup) && !Genuine(w.k, w.found[i])
      ensures Bad(w, GuidOf(w.found[i].pid, w.found[i].start))
    {
      var g := GuidOf(w.found[i].pid, w.found[i].start);
      assert IsOf(w.found[i], g);
      assert FoundIn(w.found, scope, g);
    }
    forall g | Bad(w, g) ensures !Clean(w, scope) {
      assert FoundIn(w.found, scope, g);
      var i :| 0 <= i < |w.found| && IsOf(w.found[i], g) && scope(w.found[i].cgroup);
      assert !Genuine(w.k, w.found[i]);
    }
  }

  /** No event of an identity that was not captured or had exited before is ever queued. */
  lemma NoEvent(k: K.Kernel, scope: Uint64 -> bool, g: Guid)
    requires K.KernelOk(k, scope) && (g !in k.mine || g in k.stale)
    ensures forall kind :: !K.Queued(k.queue, kind, g)
  {
    forall i | 0 <= i < |k.queue| ensures k.queue[i].Self() != g { assert K.EventOk(k, i); }
  }

  // ------------------------------------------------- when a scan is clean

  /** Nothing had exited unreaped in scope, and every accepted record is of a captured process. */
  ghost predicate Whole(w: World, scope: Uint64 -> bool) {
    && w.k.mine !! w.k.stale
    && (forall g :: FoundIn(w.found, scope, g) ==> g in w.k.mine)
  }

  /** The cgroup read met the same process as the stat read, or gave a cgroup out of scope. */
  predicate Untorn(w: World, scope: Uint64 -> bool, st: Step) {
    st.ReadCgroup? && w.phase.Statted? && scope(st.cgroup) ==>
      && w.phase.info.pid in w.k.procs
      && IsOf(w.phase.info, w.k.procs[w.phase.info.pid].guid) && st.cgroup == w.k.procs[w.phase.info.pid].cgroup
  }

  lemma CgroupWhole(w: World, cfg: Config, scope: Uint64 -> bool, cgroup: Uint64)
    requires Inv(w, scope) && Whole(w, scope) && Enabled(w, ReadCgroup(cgroup)) && Untorn(w, scope, ReadCgroup(cgroup))
    ensures Whole(Apply(w, cfg, scope, ReadCgroup(cgroup)), scope)
  {
    var w' := Apply(w, cfg, scope, ReadCgroup(cgroup));
    var info := w.phase.info.(cgroup := cgroup);
    forall g | FoundIn(w'.found, scope, g) ensures g in w'.k.mine {
      FoundMore(w.found, info, scope, g);
    }
  }

  lemma HappenWhole(w: World, cfg: Config, scope: Uint64 -> bool, d: K.Deed)
    requires Inv(w, scope) && Whole(w, scope) && Enabled(w, Happen(d))
    ensures Whole(Apply(w, cfg, scope, Happen(d)), scope)
  {
  }

  lemma StepWhole(w: World, cfg: Config, scope: Uint64 -> bool, st: Step)
    requires Inv(w, scope) && Whole(w, scope) && Enabled(w, st) && Untorn(w, scope, st)
    requires Roomy(w.table, Apply(w, cfg, scope, st).table)
    ensures Whole(Apply(w, cfg, scope, st), scope)
  {
    match st
    case Happen(d) => HappenWhole(w, cfg, scope, d);
    case ReadCgroup(cgroup) => CgroupWhole(w, cfg, scope, cgroup);
    case _ =>
  }

  ghost predicate RoomyWhole(w: World, scope: Uint64 -> bool) {
    w.table.stats.evictedLRU == 0 ==> Whole(w, scope)
  }

  lemma StepRoomyWhole(w: World, cfg: Config, scope: Uint64 -> bool, st: Step)
    requires Holds(w, cfg, scope) && RoomyWhole(w, scope) && cfg.maxEntries >= 1
    requires Enabled(w, st) && Untorn(w, scope, st)
    ensures RoomyWhole(Apply(w, cfg, scope, st), scope)
  {
    StepRoom(w, cfg, scope, st);
    if Apply(w, cfg, scope, st).table.stats.evictedLRU == 0 { StepWhole(w, cfg, scope, st); }
  }

  lemma {:induction false} RunWhole(cfg: Config, scope: Uint64 -> bool, ws: seq<World>, steps: seq<Step>, k: nat)
    requires Run(cfg, scope, ws, steps) && cfg.maxEntries >= 1 && k < |ws|
    requires ws[0].k.mine !! ws[0].k.stale
    requires forall i :: 0 <= i < |steps| ==> Untorn(ws[i], scope, steps[i])
    ensures RoomyWhole(ws[k], scope)
  {
    if k > 0 {
      RunHolds(cfg, scope, ws, steps, k - 1);
      RunWhole(cfg, scope, ws, steps, k - 1);
      assert ws[k - 1 + 1] == Apply(ws[k - 1], cfg, scope, steps[k - 1]);
      StepRoomyWhole(ws[k - 1], cfg, scope, steps[k - 1]);
    }
  }

  /** With no unreaped captured process at the beginning and no torn read there are no ghosts. */
  lemma UntornNoGhost(cfg: Config, scope: Uint64 -> bool, ws: seq<World>, steps: seq<Step>, k: nat)
    requires Run(cfg, scope, ws, steps) && cfg.maxEntries >= 1 && k < |ws|
    requires ws[k].phase.Consuming? && ws[k].table.stats.evictedLRU == 0
    requires ws[0].k.mine !! ws[0].k.stale
    requires forall i :: 0 <= i < |steps| ==> Untorn(ws[i], scope, steps[i])
    ensures NoGhost(ws[k])
  {
    RunWhole(cfg, scope, ws, steps, k);
    forall i | 0 <= i < |ws[k].found| && scope(ws[k].found[i].cgroup) ensures Genuine(ws[k].k, ws[k].found[i]) {
      var g := GuidOf(ws[k].found[i].pid, ws[k].found[i].start);
      assert IsOf(ws[k].found[i], g);
      assert FoundIn(ws[k].found, scope, g);
    }
    NoGapNoGhost(cfg, scope, ws, steps, k);
  }

  lemma {:induction false} HostHasAll(cfg: Config, scope: Uint64 -> bool, ws: seq<World>, steps: seq<Step>, k: nat)
    requires Run(cfg, scope, ws, steps) && k < |ws| && forall c :: scope(c)
    ensures ws[k].k.mine == ws[k].k.ever && ws[k].k.stale == ws[0].k.stale
  {
    if k > 0 {
      HostHasAll(cfg, scope, ws, steps, k - 1);
      assert Enabled(ws[k - 1], steps[k - 1]) && ws[k - 1 + 1] == Apply(ws[k - 1], cfg, scope, steps[k - 1]);
    }
  }

  /** In host mode torn reads do no harm. */
  lemma HostNoGhost(cfg: Config, scope: Uint64 -> bool, ws: seq<World>, steps: seq<Step>, k: nat)
    requires Run(cfg, scope, ws, steps) && cfg.maxEntries >= 1 && k < |ws|
    requires ws[k].phase.Consuming? && ws[k].table.stats.evictedLRU == 0
    requires ws[0].k.stale == {} && forall c :: scope(c)
    ensures NoGhost(ws[k])
  {
    HostHasAll(cfg, scope, ws, steps, k);
    RunHolds(cfg, scope, ws, steps, k);
    forall g | g in ws[k].seeded ensures !Bad(ws[k], g) {
      assert Bad(ws[k], g) ==> Haunts(ws[k], g);
    }
    CleanMeans(ws[k], scope);
    NoGapNoGhost(cfg, scope, ws, steps, k);
  }
}
