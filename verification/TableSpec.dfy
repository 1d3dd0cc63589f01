/**
 * The process table as one recency sequence: what Table (the map plus list of the
 * source) computes, stated on values. The front row is the most recently used one.
 */
module TableSpec {
  import opened Types
  import opened Events

  /** What /proc tells about one process; start has tick precision. */
  datatype ProcInfo = ProcInfo(
    pid: Uint32, ppid: Uint32, start: Uint64, image: Text, argv: seq<Text>, cgroup: Uint64)

  /** The answer to one /proc read, with the answer InScope gives for the cgroup read. */
  datatype ReadResult = ReadFailed | ReadOk(info: ProcInfo, inScope: bool)

  /** One process. exitedAt is None while it runs; parentGuid is None when unknown. */
  datatype Row = Row(
    guid: Guid, parentGuid: Option<Guid>, pid: Uint32, ppid: Uint32, start: Uint64,
    image: Text, argv: seq<Text>, cgroup: Uint64, external: bool, exitedAt: Option<int>)

  datatype Stats = Stats(
    evictedExit: nat, evictedLRU: nat, procLookups: nat, procMisses: nat, unknownExits: nat)

  /** History of the recency list: uses of a key, and the two ways a key leaves. */
  datatype Mark = Touched(guid: Guid) | Evicted(guid: Guid) | Swept(guids: set<Guid>)

  /** log is history only: no operation reads it. */
  datatype Table = Table(rows: seq<Row>, stats: Stats, log: seq<Mark>)

  datatype Config = Config(maxEntries: nat, exitTTL: int, procOn: bool)

  /** New: zero or negative settings take their defaults (100 000 rows, 30 s). */
  function Configure(maxEntries: int, exitTTL: int, procOn: bool): (cfg: Config)
    ensures cfg.maxEntries >= 1 && cfg.exitTTL > 0
    ensures cfg.procOn == procOn
    ensures maxEntries > 0 ==> cfg.maxEntries == maxEntries
    ensures maxEntries <= 0 ==> cfg.maxEntries == 100_000
    ensures exitTTL > 0 ==> cfg.exitTTL == exitTTL
    ensures exitTTL <= 0 ==> cfg.exitTTL == 30_000_000_000
  {
    Config(if maxEntries <= 0 then 100_000 else maxEntries,
           if exitTTL <= 0 then 30_000_000_000 else exitTTL, procOn)
  }

  const EMPTY := Table([], Stats(0, 0, 0, 0, 0), [])

  // ---------------------------------------------------------------- rows

  function Keys(rows: seq<Row>): set<Guid> {
    set r | r in rows :: r.guid
  }

  ghost predicate Unique(rows: seq<Row>) {
    forall i, j :: 0 <= i < j < |rows| ==> rows[i].guid != rows[j].guid
  }

  function Find(rows: seq<Row>, g: Guid): (r: Option<Row>)
    ensures r.Some? <==> g in Keys(rows)
    ensures r.Some? ==> r.value in rows && r.value.guid == g
  {
    if rows == [] then None
    else if rows[0].guid == g then Some(rows[0])
    else
      assert forall r :: r in rows <==> r == rows[0] || r in rows[1..];
      Find(rows[1..], g)
  }

  function Without(rows: seq<Row>, g: Guid): (w: seq<Row>)
    ensures forall r :: r in w <==> r in rows && r.guid != g
  {
    if rows == [] then []
    else
      assert forall r :: r in rows <==> r == rows[0] || r in rows[1..];
      if rows[0].guid == g then Without(rows[1..], g) else [rows[0]] + Without(rows[1..], g)
  }

  // ---------------------------------------------------------- primitives

  function Touch(t: Table, r: Row): Table {
    t.(rows := [r] + Without(t.rows, r.guid), log := t.log + [Touched(r.guid)])
  }

  /** The marks of evicting from the back until max rows are left. */
  function EvictMarks(rows: seq<Row>, max: nat): seq<Mark> {
    if |rows| <= max then []
    else [Evicted(rows[|rows| - 1].guid)] + EvictMarks(rows[..|rows| - 1], max)
  }

  function Truncate(rows: seq<Row>, max: nat): seq<Row> {
    if |rows| <= max then rows else rows[..max]
  }

  /** Push to the front, then truncate to max rows. */
  function Insert(t: Table, row: Row, max: nat): Table {
    var rows := [row] + t.rows;
    var kept := Truncate(rows, max);
    Table(kept,
          t.stats.(evictedLRU := t.stats.evictedLRU + |rows| - |kept|),
          t.log + [Touched(row.guid)] + EvictMarks(rows, max))
  }

  /** Assign fields of the entry just used, which is the front one. */
  function SetFront(t: Table, row: Row): Table {
    if t.rows == [] then t else t.(rows := [row] + t.rows[1..])
  }

  datatype Got = Got(table: Table, row: Option<Row>)

  function Get(t: Table, g: Guid): Got {
    var r := Find(t.rows, g);
    Got(if r.Some? then Touch(t, r.value) else t, r)
  }

  // ------------------------------------------------------------- parents

  function ProcRow(g: Guid, info: ProcInfo, inScope: bool): Row {
    Row(g, None, info.pid, info.ppid, info.start, info.image, info.argv, info.cgroup, !inScope, None)
  }

  /** /proc is asked only when enabled and the pid is not 0; a reused pid is not trusted. */
  predicate Trusted(cfg: Config, pid: Uint32, start: Uint64, read: ReadResult) {
    cfg.procOn && pid != 0 && read.ReadOk? && StartTicks(read.info.start) == StartTicks(start)
  }

  /** parent: the resident row, or one made from /proc. */
  function Resolve(t: Table, cfg: Config, g: Guid, pid: Uint32, start: Uint64, read: ReadResult): Got {
    var got := Get(t, g);
    if got.row.Some? then got
    else if !cfg.procOn || pid == 0 then Got(t, None)
    else if !Trusted(cfg, pid, start, read) then
      Got(t.(stats := t.stats.(procMisses := t.stats.procMisses + 1)), None)
    else
      var row := ProcRow(g, read.info, read.inScope);
      Got(Insert(t.(stats := t.stats.(procLookups := t.stats.procLookups + 1)), row, cfg.maxEntries), Some(row))
  }

  // -------------------------------------------------------------- Handle

  function NewRow(ev: Event): Row {
    Row(ev.Self(), Some(ev.HeaderParent()), ev.process.pid, ev.parent.pid, ev.process.start,
        [], [], ev.process.cgroup, false, None)
  }

  /** The fork branch for a process not in the table: it runs its parent's image. */
  function RecordFork(t: Table, cfg: Config, ev: Event, read: ReadResult): Got {
    var up := Resolve(t, cfg, ev.HeaderParent(), ev.parent.pid, ev.parent.start, read);
    var row := if up.row.Some? then NewRow(ev).(image := up.row.value.image, argv := up.row.value.argv)
               else NewRow(ev);
    Got(Insert(up.table, row, cfg.maxEntries), Some(row))
  }

  function RecordExec(got: Got, cfg: Config, ev: Event): Got {
    var base := if got.row.Some? then got.row.value else NewRow(ev);
    var t := if got.row.Some? then got.table else Insert(got.table, base, cfg.maxEntries);
    var row := base.(image := ev.process.image, argv := ev.process.argv, external := false);
    Got(SetFront(t, row), Some(row))
  }

  function RecordExit(got: Got, now: int): Got {
    if got.row.None? then
      Got(got.table.(stats := got.table.stats.(unknownExits := got.table.stats.unknownExits + 1)), None)
    else if got.row.value.exitedAt.None? then
      var row := got.row.value.(exitedAt := Some(now));
      Got(SetFront(got.table, row), Some(row))
    else got
  }

  /** The first half of Handle: bring the event's process up to date. */
  function Record(t: Table, cfg: Config, ev: Event, read: ReadResult, now: int): Got {
    var got := Get(t, ev.Self());
    match ev.kind
    case KindFork => if got.row.Some? then got else RecordFork(t, cfg, ev, read)
    case KindExec => RecordExec(got, cfg, ev)
    case KindExit => RecordExit(got, now)
  }

  datatype Handled = Handled(table: Table, event: Event)

  /** The event with the process half filled in from its entry. */
  function WithProcess(ev: Event, e: Option<Row>): Event {
    var p := ev.process.(guid := Some(ev.Self()));
    ev.(process := if e.Some? && !ev.kind.KindExec? then p.(image := e.value.image, argv := e.value.argv) else p)
  }

  /** Who is reported: the recorded parent while it is resident, else the header's parent. */
  function ReportedParent(t: Table, ev: Event, e: Option<Row>): Got {
    if e.Some? && e.value.parentGuid.Some? && e.value.parentGuid.value != ev.HeaderParent() then
      Get(t, e.value.parentGuid.value)
    else Got(t, None)
  }

  /** The event with its parent named, and described from the parent's row if there is one. */
  function WithParent(ev: Event, g: Guid, pid: Uint32, start: Uint64, p: Option<Row>): Event {
    var named := ev.parent.(guid := Some(g), pid := pid, start := start);
    ev.(parent :=
      if p.Some? then named.(known := true, external := p.value.external, image := p.value.image, argv := p.value.argv)
      else named)
  }

  /** The second half of Handle: report the parent. */
  function Report(t: Table, cfg: Config, ev: Event, e: Option<Row>, read: ReadResult): Handled {
    var orig := ReportedParent(t, ev, e);
    var g := if orig.row.Some? then orig.row.value.guid else ev.HeaderParent();
    var pid := if orig.row.Some? then orig.row.value.pid else ev.parent.pid;
    var start := if orig.row.Some? then orig.row.value.start else ev.parent.start;
    var p := Resolve(orig.table, cfg, g, pid, start, read);
    Handled(p.table, WithParent(WithProcess(ev, e), g, pid, start, p.row))
  }

  /**
   * Handle. forkRead answers the /proc read made while recording a fork, parentRead the
   * one made while reporting the parent; at most these two reads happen, of the header's parent pid.
   */
  function Handle(t: Table, cfg: Config, ev: Event, forkRead: ReadResult, parentRead: ReadResult, now: int): Handled {
    var got := Record(t, cfg, ev, forkRead, now);
    Report(got.table, cfg, ev, got.row, parentRead)
  }

  // ------------------------------------------------------- Seed and Sweep

  /** The start time of each scanned pid; a later record of the same pid wins. */
  function Starts(procs: seq<ProcInfo>): map<Uint32, Uint64> {
    if procs == [] then map[]
    else
      var last := procs[|procs| - 1];
      Starts(procs[..|procs| - 1])[last.pid := last.start]
  }

  function SeedRow(starts: map<Uint32, Uint64>, p: ProcInfo): Row {
    Row(GuidOf(p.pid, p.start),
        if p.ppid in starts && p.ppid != 0 then Some(GuidOf(p.ppid, starts[p.ppid])) else None,
        p.pid, p.ppid, p.start, p.image, p.argv, p.cgroup, false, None)
  }

  datatype Counted = Counted(table: Table, n: nat)

  function SeedOne(t: Table, cfg: Config, starts: map<Uint32, Uint64>, p: ProcInfo, inScope: bool): Counted {
    var row := SeedRow(starts, p);
    if inScope && row.guid !in Keys(t.rows) then Counted(Insert(t, row, cfg.maxEntries), 1) else Counted(t, 0)
  }

  /** Seeding the first k scanned processes; scope[i] is what InScope answered for the i-th. */
  function SeedTo(t: Table, cfg: Config, procs: seq<ProcInfo>, scope: seq<bool>, k: nat): Counted
    requires k <= |procs| == |scope|
  {
    if k == 0 then Counted(t, 0)
    else
      var before := SeedTo(t, cfg, procs, scope, k - 1);
      var one := SeedOne(before.table, cfg, Starts(procs), procs[k - 1], scope[k - 1]);
      Counted(one.table, before.n + one.n)
  }

  function Seed(t: Table, cfg: Config, procs: seq<ProcInfo>, scope: seq<bool>): Counted
    requires |procs| == |scope|
  {
    SeedTo(t, cfg, procs, scope, |procs|)
  }

  predicate Expired(r: Row, cutoff: int) {
    r.exitedAt.Some? && r.exitedAt.value < cutoff
  }

  function Fresh(rows: seq<Row>, cutoff: int): (f: seq<Row>)
    ensures forall r :: r in f <==> r in rows && !Expired(r, cutoff)
    ensures |f| <= |rows|
  {
    if rows == [] then []
    else
      assert forall r :: r in rows <==> r == rows[0] || r in rows[1..];
      (if Expired(rows[0], cutoff) then [] else [rows[0]]) + Fresh(rows[1..], cutoff)
  }

  function ExpiredKeys(rows: seq<Row>, cutoff: int): set<Guid> {
    set r | r in rows && Expired(r, cutoff) :: r.guid
  }

  /** Sweep: an order-preserving filter. */
  function Sweep(t: Table, cfg: Config, now: int): Counted {
    var cutoff := now - cfg.exitTTL;
    var kept := Fresh(t.rows, cutoff);
    var n := |t.rows| - |kept|;
    Counted(Table(kept, t.stats.(evictedExit := t.stats.evictedExit + n),
                  t.log + [Swept(ExpiredKeys(t.rows, cutoff))]), n)
  }

  // ---------------------------------------------------------------- runs

  datatype Op =
    | SeedOp(procs: seq<ProcInfo>, scope: seq<bool>)
    | HandleOp(ev: Event, forkRead: ReadResult, parentRead: ReadResult, now: int)
    | SweepOp(at: int)
    | LookupOp(key: Guid)

  datatype Out = Seeded(n: nat) | Enriched(ev: Event) | SweptOut(n: nat) | LookedUp(row: Option<Row>)

  /** /proc answers about the pid it was asked for. */
  predicate AnswersFor(read: ReadResult, pid: Uint32) {
    read.ReadOk? ==> read.info.pid == pid
  }

  /** What the environment guarantees: /proc answers for the pid, no process forks itself. */
  predicate OpOk(op: Op) {
    match op
    case SeedOp(procs, scope) => |procs| == |scope|
    case HandleOp(ev, r1, r2, _) =>
      && AnswersFor(r1, ev.parent.pid) && AnswersFor(r2, ev.parent.pid)
      && (ev.kind.KindFork? ==> ev.Self() != ev.HeaderParent())
    case _ => true
  }

  function Step(t: Table, cfg: Config, op: Op): Table
    requires OpOk(op)
  {
    match op
    case SeedOp(procs, scope) => Seed(t, cfg, procs, scope).table
    case HandleOp(ev, r1, r2, now) => Handle(t, cfg, ev, r1, r2, now).table
    case SweepOp(now) => Sweep(t, cfg, now).table
    case LookupOp(_) => t
  }

  function Output(t: Table, cfg: Config, op: Op): Out
    requires OpOk(op)
  {
    match op
    case SeedOp(procs, scope) => Seeded(Seed(t, cfg, procs, scope).n)
    case HandleOp(ev, r1, r2, now) => Enriched(Handle(t, cfg, ev, r1, r2, now).event)
    case SweepOp(now) => SweptOut(Sweep(t, cfg, now).n)
    case LookupOp(g) => LookedUp(Find(t.rows, g))
  }

  ghost predicate OpsOk(ops: seq<Op>) {
    forall i :: 0 <= i < |ops| ==> OpOk(ops[i])
  }

  /** The table after a whole run from empty. */
  function Run(cfg: Config, ops: seq<Op>): Table
    requires forall i :: 0 <= i < |ops| ==> OpOk(ops[i])
  {
    if ops == [] then EMPTY else Step(Run(cfg, ops[..|ops| - 1]), cfg, ops[|ops| - 1])
  }
}
