/**
 * The simple form of the process table: an unbounded map, no recency list, no cap. A run
 * of the real table that never evicted for space cannot be told apart from it.
 */
module PlainTable {
  import opened Types
  import opened Events
  import opened TableSpec
  import opened TableProps

  datatype Plain = Plain(m: map<Guid, Row>, stats: Stats)

  const PLAIN_EMPTY := Plain(map[], Stats(0, 0, 0, 0, 0))

  datatype PlainGot = PlainGot(table: Plain, row: Option<Row>)
  datatype PlainHandled = PlainHandled(table: Plain, event: Event)
  datatype PlainCounted = PlainCounted(table: Plain, n: nat)

  function Lookup(p: Plain, g: Guid): Option<Row> {
    if g in p.m then Some(p.m[g]) else None
  }

  function Put(p: Plain, row: Row): Plain {
    p.(m := p.m[row.guid := row])
  }

  function PlainResolve(p: Plain, cfg: Config, g: Guid, pid: Uint32, start: Uint64, read: ReadResult): PlainGot {
    if g in p.m then PlainGot(p, Some(p.m[g]))
    else if !cfg.procOn || pid == 0 then PlainGot(p, None)
    else if Trusted(cfg, pid, start, read) then
      var row := ProcRow(g, read.info, read.inScope);
      PlainGot(Put(p, row).(stats := p.stats.(procLookups := p.stats.procLookups + 1)), Some(row))
    else PlainGot(p.(stats := p.stats.(procMisses := p.stats.procMisses + 1)), None)
  }

  function PlainRecord(p: Plain, cfg: Config, ev: Event, read: ReadResult, now: int): PlainGot {
    var g := ev.Self();
    match ev.kind
    case KindFork =>
      if g in p.m then PlainGot(p, Some(p.m[g]))
      else
        var up := PlainResolve(p, cfg, ev.HeaderParent(), ev.parent.pid, ev.parent.start, read);
        var row := if up.row.Some? then NewRow(ev).(image := up.row.value.image, argv := up.row.value.argv)
                   else NewRow(ev);
        PlainGot(Put(up.table, row), Some(row))
    case KindExec =>
      var base := if g in p.m then p.m[g] else NewRow(ev);
      var row := base.(image := ev.process.image, argv := ev.process.argv, external := false);
      PlainGot(Put(p, row), Some(row))
    case KindExit =>
      if g !in p.m then PlainGot(p.(stats := p.stats.(unknownExits := p.stats.unknownExits + 1)), None)
      else
        var row := if p.m[g].exitedAt.None? then p.m[g].(exitedAt := Some(now)) else p.m[g];
        PlainGot(Put(p, row), Some(row))
  }

  function PlainReport(p: Plain, cfg: Config, ev: Event, e: Option<Row>, r2: ReadResult): PlainHandled {
    var orig := if e.Some? && e.value.parentGuid.Some? then Lookup(p, e.value.parentGuid.value) else None;
    if orig.Some? && e.value.parentGuid.value != ev.HeaderParent() then
      PlainHandled(p, WithParent(WithProcess(ev, e), orig.value.guid, orig.value.pid, orig.value.start, orig))
    else
      var up := PlainResolve(p, cfg, ev.HeaderParent(), ev.parent.pid, ev.parent.start, r2);
      PlainHandled(up.table, WithParent(WithProcess(ev, e), ev.HeaderParent(), ev.parent.pid, ev.parent.start, up.row))
  }

  function PlainHandle(p: Plain, cfg: Config, ev: Event, r1: ReadResult, r2: ReadResult, now: int): PlainHandled {
    var got := PlainRecord(p, cfg, ev, r1, now);
    PlainReport(got.table, cfg, ev, got.row, r2)
  }

  function PlainSeedTo(p: Plain, procs: seq<ProcInfo>, scope: seq<bool>, k: nat): PlainCounted
    requires k <= |procs| == |scope|
  {
    if k == 0 then PlainCounted(p, 0)
    else
      var before := PlainSeedTo(p, procs, scope, k - 1);
      var row := SeedRow(Starts(procs), procs[k - 1]);
      if scope[k - 1] && row.guid !in before.table.m
      then PlainCounted(Put(before.table, row), before.n + 1)
      else before
  }

  function KeepFresh(m: map<Guid, Row>, cutoff: int): map<Guid, Row> {
    map g | g in m && !Expired(m[g], cutoff) :: m[g]
  }

  function PlainSweep(p: Plain, cfg: Config, now: int): PlainCounted {
    var kept := KeepFresh(p.m, now - cfg.exitTTL);
    var n := if |kept| <= |p.m| then |p.m| - |kept| else 0;
    PlainCounted(Plain(kept, p.stats.(evictedExit := p.stats.evictedExit + n)), n)
  }

  function PlainStep(p: Plain, cfg: Config, op: Op): Plain
    requires OpOk(op)
  {
    match op
    case SeedOp(procs, scope) => PlainSeedTo(p, procs, scope, |procs|).table
    case HandleOp(ev, r1, r2, now) => PlainHandle(p, cfg, ev, r1, r2, now).table
    case SweepOp(now) => PlainSweep(p, cfg, now).table
    case LookupOp(_) => p
  }

  function PlainOutput(p: Plain, cfg: Config, op: Op): Out
    requires OpOk(op)
  {
    match op
    case SeedOp(procs, scope) => Seeded(PlainSeedTo(p, procs, scope, |procs|).n)
    case HandleOp(ev, r1, r2, now) => Enriched(PlainHandle(p, cfg, ev, r1, r2, now).event)
    case SweepOp(now) => SweptOut(PlainSweep(p, cfg, now).n)
    case LookupOp(g) => LookedUp(Lookup(p, g))
  }

  function PlainRun(cfg: Config, ops: seq<Op>): Plain
    requires forall i :: 0 <= i < |ops| ==> OpOk(ops[i])
  {
    if ops == [] then PLAIN_EMPTY else PlainStep(PlainRun(cfg, ops[..|ops| - 1]), cfg, ops[|ops| - 1])
  }

  // ------------------------------------------------- lookups in a row list

  lemma {:induction false} FindWithout(rows: seq<Row>, x: Guid, g: Guid)
    ensures Find(Without(rows, x), g) == if g == x then None else Find(rows, g)
  {
    if rows != [] {
      FindWithout(rows[1..], x, g);
      FindCons(rows[0], Without(rows[1..], x), g);
    }
  }

  lemma FindCons(row: Row, rows: seq<Row>, g: Guid)
    ensures Find([row] + rows, g) == if g == row.guid then Some(row) else Find(rows, g)
  {
    assert ([row] + rows)[1..] == rows;
  }

  /** Move-to-front does not change any lookup. */
  lemma FindTouch(t: Table, r: Row, g: Guid)
    requires Find(t.rows, r.guid) == Some(r)
    ensures Find(Touch(t, r).rows, g) == Find(t.rows, g)
  {
    FindWithout(t.rows, r.guid, g);
    FindCons(r, Without(t.rows, r.guid), g);
  }

  lemma FindSetFront(t: Table, row: Row, g: Guid)
    requires t.rows != [] && t.rows[0].guid == row.guid
    ensures Find(SetFront(t, row).rows, g) == if g == row.guid then Some(row) else Find(t.rows, g)
  {
    FindCons(row, t.rows[1..], g);
  }

  lemma {:induction false} FindFresh(rows: seq<Row>, cutoff: int, g: Guid)
    requires Unique(rows)
    ensures Find(Fresh(rows, cutoff), g) ==
            var r := Find(rows, g); if r.Some? && Expired(r.value, cutoff) then None else r
  {
    if rows != [] {
      var f := Fresh(rows[1..], cutoff);
      FindFresh(rows[1..], cutoff, g);
      FirstIsAlone(rows);
      assert [] + f == f;
      FindCons(rows[0], f, g);
    }
  }

  lemma {:induction false} KeysCount(rows: seq<Row>)
    requires Unique(rows)
    ensures |Keys(rows)| == |rows|
  {
    if rows == [] {
      assert Keys(rows) == {};
    } else {
      FirstIsAlone(rows);
      KeysCount(rows[1..]);
    }
  }

  // ------------------------------------------------------- simulation

  /** The plain map answers every lookup as the table does and has the same counters. */
  ghost predicate Sim(t: Table, p: Plain) {
    p.stats == t.stats && forall g :: Lookup(p, g) == Find(t.rows, g)
  }

  /** No entry was evicted for space in between. */
  ghost predicate Roomy(t: Table, t': Table) {
    t'.stats.evictedLRU == t.stats.evictedLRU
  }

  lemma SimGet(t: Table, p: Plain, g: Guid)
    requires Sim(t, p)
    ensures Sim(Get(t, g).table, p) && Get(t, g).row == Lookup(p, g)
  {
    var r := Find(t.rows, g);
    if r.Some? {
      forall k ensures Lookup(p, k) == Find(Touch(t, r.value).rows, k) { FindTouch(t, r.value, k); }
    }
  }

  lemma SimInsert(t: Table, p: Plain, row: Row, max: nat)
    requires Sim(t, p) && Roomy(t, Insert(t, row, max))
    ensures Sim(Insert(t, row, max), Put(p, row))
  {
    var t' := Insert(t, row, max);
    assert t'.rows == [row] + t.rows;
    forall k ensures Lookup(Put(p, row), k) == Find(t'.rows, k) {
      FindCons(row, t.rows, k);
      assert Lookup(p, k) == Find(t.rows, k);
    }
  }

  lemma SimSetFront(t: Table, p: Plain, row: Row)
    requires Sim(t, p) && t.rows != [] && t.rows[0].guid == row.guid
    ensures Sim(SetFront(t, row), Put(p, row))
  {
    forall k ensures Lookup(Put(p, row), k) == Find(SetFront(t, row).rows, k) {
      FindSetFront(t, row, k);
      assert Lookup(p, k) == Find(t.rows, k);
    }
  }

  lemma SimResolve(t: Table, cfg: Config, p: Plain, g: Guid, pid: Uint32, start: Uint64, read: ReadResult)
    requires Sim(t, p) && Roomy(t, Resolve(t, cfg, g, pid, start, read).table)
    ensures var a := Resolve(t, cfg, g, pid, start, read);
            var b := PlainResolve(p, cfg, g, pid, start, read);
            Sim(a.table, b.table) && a.row == b.row
  {
    SimGet(t, p, g);
    assert Lookup(p, g) == Find(t.rows, g);
    if Get(t, g).row.None? && Trusted(cfg, pid, start, read) {
      var t1 := t.(stats := t.stats.(procLookups := t.stats.procLookups + 1));
      SimInsert(t1, p.(stats := t1.stats), ProcRow(g, read.info, read.inScope), cfg.maxEntries);
    }
  }

  lemma SimFork(t: Table, cfg: Config, p: Plain, ev: Event, read: ReadResult, now: int)
    requires Sim(t, p) && ev.Self() !in Keys(t.rows) && ev.kind.KindFork?
    requires Roomy(t, RecordFork(t, cfg, ev, read).table)
    ensures var a := RecordFork(t, cfg, ev, read);
            var b := PlainRecord(p, cfg, ev, read, now);
            Sim(a.table, b.table) && a.row == b.row
  {
    var h := ev.HeaderParent();
    var up := Resolve(t, cfg, h, ev.parent.pid, ev.parent.start, read);
    assert Lookup(p, ev.Self()) == Find(t.rows, ev.Self());
    SimResolve(t, cfg, p, h, ev.parent.pid, ev.parent.start, read);
    SimInsert(up.table, PlainResolve(p, cfg, h, ev.parent.pid, ev.parent.start, read).table,
              RecordFork(t, cfg, ev, read).row.value, cfg.maxEntries);
  }

  lemma SimExec(t: Table, cfg: Config, p: Plain, ev: Event, read: ReadResult, now: int)
    requires Sim(t, p) && cfg.maxEntries >= 1 && ev.kind.KindExec?
    requires Roomy(t, RecordExec(Get(t, ev.Self()), cfg, ev).table)
    ensures var a := RecordExec(Get(t, ev.Self()), cfg, ev);
            var b := PlainRecord(p, cfg, ev, read, now);
            Sim(a.table, b.table) && a.row == b.row
  {
    var got := Get(t, ev.Self());
    var row := RecordExec(got, cfg, ev).row.value;
    SimGet(t, p, ev.Self());
    if got.row.Some? {
      SimSetFront(got.table, p, row);
    } else {
      SimInsert(t, p, NewRow(ev), cfg.maxEntries);
      SimSetFront(Insert(t, NewRow(ev), cfg.maxEntries), Put(p, NewRow(ev)), row);
      assert p.m[row.guid := NewRow(ev)][row.guid := row] == p.m[row.guid := row];
    }
  }

  lemma SimExit(t: Table, cfg: Config, p: Plain, ev: Event, read: ReadResult, now: int)
    requires Sim(t, p) && ev.kind.KindExit?
    ensures var a := RecordExit(Get(t, ev.Self()), now);
            var b := PlainRecord(p, cfg, ev, read, now);
            Sim(a.table, b.table) && a.row == b.row
  {
    var got := Get(t, ev.Self());
    SimGet(t, p, ev.Self());
    if got.row.Some? {
      var r := got.row.value;
      if r.exitedAt.None? {
        SimSetFront(got.table, p, r.(exitedAt := Some(now)));
      } else {
        assert p.m[r.guid := r] == p.m;
      }
    }
  }

  lemma SimRecord(t: Table, cfg: Config, p: Plain, ev: Event, read: ReadResult, now: int)
    requires Sim(t, p) && cfg.maxEntries >= 1 && Roomy(t, Record(t, cfg, ev, read, now).table)
    ensures var a := Record(t, cfg, ev, read, now);
            var b := PlainRecord(p, cfg, ev, read, now);
            Sim(a.table, b.table) && a.row == b.row
  {
    match ev.kind
    case KindFork =>
      SimGet(t, p, ev.Self());
      if ev.Self() !in Keys(t.rows) { SimFork(t, cfg, p, ev, read, now); }
    case KindExec => SimExec(t, cfg, p, ev, read, now);
    case KindExit => SimExit(t, cfg, p, ev, read, now);
  }

  lemma SimReport(t: Table, cfg: Config, p: Plain, ev: Event, e: Option<Row>, read: ReadResult)
    requires Sim(t, p) && Roomy(t, Report(t, cfg, ev, e, read).table)
    ensures var a := Report(t, cfg, ev, e, read);
            var b := PlainReport(p, cfg, ev, e, read);
            Sim(a.table, b.table) && a.event == b.event
  {
    var orig := ReportedParent(t, ev, e);
    if e.Some? && e.value.parentGuid.Some? { SimGet(t, p, e.value.parentGuid.value); }
    if orig.row.Some? {
      SimResolve(orig.table, cfg, p, orig.row.value.guid, orig.row.value.pid, orig.row.value.start, read);
    } else {
      SimResolve(t, cfg, p, ev.HeaderParent(), ev.parent.pid, ev.parent.start, read);
    }
  }

  lemma SimHandle(t: Table, cfg: Config, p: Plain, ev: Event, r1: ReadResult, r2: ReadResult, now: int)
    requires Sim(t, p) && Core(t, cfg) && cfg.maxEntries >= 1
    requires ev.kind.KindFork? ==> ev.Self() != ev.HeaderParent()
    requires Roomy(t, Handle(t, cfg, ev, r1, r2, now).table)
    ensures var a := Handle(t, cfg, ev, r1, r2, now);
            var b := PlainHandle(p, cfg, ev, r1, r2, now);
            Sim(a.table, b.table) && a.event == b.event
  {
    var got := Record(t, cfg, ev, r1, now);
    RecordEvolves(t, cfg, ev, r1, now);
    ReportEvolves(got.table, cfg, ev, got.row, r2);
    SimRecord(t, cfg, p, ev, r1, now);
    SimReport(got.table, cfg, PlainRecord(p, cfg, ev, r1, now).table, ev, got.row, r2);
  }

  lemma {:induction false} SeedEvictions(t: Table, cfg: Config, procs: seq<ProcInfo>, scope: seq<bool>, k: nat)
    requires k <= |procs| == |scope|
    ensures t.stats.evictedLRU <= SeedTo(t, cfg, procs, scope, k).table.stats.evictedLRU
  {
    if k > 0 { SeedEvictions(t, cfg, procs, scope, k - 1); }
  }

  lemma SimSeedOne(t: Table, cfg: Config, p: Plain, starts: map<Uint32, Uint64>, info: ProcInfo, inScope: bool)
    requires Sim(t, p) && Roomy(t, SeedOne(t, cfg, starts, info, inScope).table)
    ensures var a := SeedOne(t, cfg, starts, info, inScope);
            var row := SeedRow(starts, info);
            if inScope && row.guid !in p.m then a.n == 1 && Sim(a.table, Put(p, row)) else a.n == 0 && a.table == t
  {
    var row := SeedRow(starts, info);
    assert Lookup(p, row.guid) == Find(t.rows, row.guid);
    if inScope && row.guid !in Keys(t.rows) { SimInsert(t, p, row, cfg.maxEntries); }
  }

  lemma {:induction false} SimSeed(t: Table, cfg: Config, p: Plain, procs: seq<ProcInfo>, scope: seq<bool>, k: nat)
    requires Sim(t, p) && k <= |procs| == |scope|
    requires Roomy(t, SeedTo(t, cfg, procs, scope, k).table)
    ensures var a := SeedTo(t, cfg, procs, scope, k);
            var b := PlainSeedTo(p, procs, scope, k);
            Sim(a.table, b.table) && a.n == b.n
  {
    if k > 0 {
      SeedEvictions(t, cfg, procs, scope, k - 1);
      SimSeed(t, cfg, p, procs, scope, k - 1);
      SimSeedOne(SeedTo(t, cfg, procs, scope, k - 1).table, cfg, PlainSeedTo(p, procs, scope, k - 1).table,
                 Starts(procs), procs[k - 1], scope[k - 1]);
    }
  }

  lemma SimSize(t: Table, p: Plain)
    requires Sim(t, p) && Unique(t.rows)
    ensures |p.m| == |t.rows|
  {
    forall g ensures g in p.m <==> g in Keys(t.rows) { assert Lookup(p, g) == Find(t.rows, g); }
    assert p.m.Keys == Keys(t.rows);
    KeysCount(t.rows);
  }

  lemma SimSweep(t: Table, p: Plain, cfg: Config, now: int)
    requires Sim(t, p) && Unique(t.rows) && Unique(Fresh(t.rows, now - cfg.exitTTL))
    ensures var a := Sweep(t, cfg, now);
            var b := PlainSweep(p, cfg, now);
            Sim(a.table, b.table) && a.n == b.n
  {
    var cutoff := now - cfg.exitTTL;
    var f := Fresh(t.rows, cutoff);
    var kept := p.(m := KeepFresh(p.m, cutoff));
    forall g ensures Lookup(kept, g) == Find(f, g) {
      assert Lookup(p, g) == Find(t.rows, g);
      FindFresh(t.rows, cutoff, g);
    }
    SimSize(t, p);
    SimSize(t.(rows := f), kept);
  }

  /** One operation: same output, and the simulation goes on. */
  lemma SimStep(t: Table, cfg: Config, p: Plain, op: Op)
    requires Sim(t, p) && Core(t, cfg) && cfg.maxEntries >= 1 && OpOk(op) && Roomy(t, Step(t, cfg, op))
    ensures Sim(Step(t, cfg, op), PlainStep(p, cfg, op))
    ensures Output(t, cfg, op) == PlainOutput(p, cfg, op)
  {
    match op
    case SeedOp(procs, scope) => SimSeed(t, cfg, p, procs, scope, |procs|);
    case HandleOp(ev, r1, r2, now) => SimHandle(t, cfg, p, ev, r1, r2, now);
    case SweepOp(now) => SweepCore(t, cfg, now); SimSweep(t, p, cfg, now);
    case LookupOp(g) => SimGet(t, p, g);
  }

  lemma {:induction false} SimRun(cfg: Config, ops: seq<Op>)
    requires cfg.maxEntries >= 1 && OpsOk(ops) && Run(cfg, ops).stats.evictedLRU == 0
    ensures Sim(Run(cfg, ops), PlainRun(cfg, ops))
  {
    if ops != [] {
      var before := ops[..|ops| - 1];
      RunInvariant(cfg, before);
      StepEvolves(Run(cfg, before), cfg, ops[|ops| - 1]);
      SimRun(cfg, before);
      SimStep(Run(cfg, before), cfg, PlainRun(cfg, before), ops[|ops| - 1]);
    }
  }

  /** The eviction counter never goes down. */
  lemma {:induction false} RoomyPrefix(cfg: Config, ops: seq<Op>, k: nat)
    requires cfg.maxEntries >= 1 && OpsOk(ops) && k <= |ops|
    ensures Run(cfg, ops[..k]).stats.evictedLRU <= Run(cfg, ops).stats.evictedLRU
  {
    if k == |ops| {
      assert ops[..k] == ops;
    } else {
      var before := ops[..|ops| - 1];
      assert before[..k] == ops[..k];
      RoomyPrefix(cfg, before, k);
      RunInvariant(cfg, before);
      StepEvolves(Run(cfg, before), cfg, ops[|ops| - 1]);
    }
  }

  lemma RunSplit(cfg: Config, ops: seq<Op>, k: nat)
    requires OpsOk(ops) && k < |ops|
    ensures Run(cfg, ops[..k + 1]) == Step(Run(cfg, ops[..k]), cfg, ops[k])
  {
    assert ops[..k + 1][..k] == ops[..k] && ops[..k + 1][k] == ops[k];
  }

  /**
   * A run that ends with EvictedLRU = 0 is indistinguishable from the plain map: at every
   * operation the same enriched event, lookup answer or count, and the same counters.
   */
  lemma Indistinguishable(cfg: Config, ops: seq<Op>, k: nat)
    requires cfg.maxEntries >= 1 && OpsOk(ops) && Run(cfg, ops).stats.evictedLRU == 0 && k < |ops|
    ensures Output(Run(cfg, ops[..k]), cfg, ops[k]) == PlainOutput(PlainRun(cfg, ops[..k]), cfg, ops[k])
    ensures Run(cfg, ops).stats == PlainRun(cfg, ops).stats
    ensures |Run(cfg, ops).rows| == |PlainRun(cfg, ops).m|
  {
    RunInvariant(cfg, ops);
    SimRun(cfg, ops);
    SimSize(Run(cfg, ops), PlainRun(cfg, ops));
    RoomyPrefix(cfg, ops, k);
    RoomyPrefix(cfg, ops, k + 1);
    RunInvariant(cfg, ops[..k]);
    SimRun(cfg, ops[..k]);
    RunSplit(cfg, ops, k);
    SimStep(Run(cfg, ops[..k]), cfg, PlainRun(cfg, ops[..k]), ops[k]);
  }
}
