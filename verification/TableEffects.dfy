/** What one table operation does to the lookup of one key, as long as nothing is evicted for space. */
module TableEffects {
  import opened Types
  import opened Events
  import opened TableSpec
  import opened TableProps
  import opened PlainTable

  /** The plain map with the same answers as a table. */
  ghost function PlainOf(t: Table): (p: Plain)
    ensures Sim(t, p)
  {
    Plain(map g | g in Keys(t.rows) :: Find(t.rows, g).value, t.stats)
  }

  /** A lookup is untouched, or finds a row read from /proc just now: not marked exited, no parent recorded. */
  ghost predicate SameOrNew(before: Option<Row>, after: Option<Row>) {
    after == before || (before.None? && after.value.exitedAt.None? && after.value.parentGuid.None?)
  }

  /** The lookup of the event's own process. */
  ghost predicate OwnLookup(ev: Event, before: Option<Row>, after: Option<Row>) {
    match ev.kind
    case KindExit =>
      if before.Some? then
        after.Some? && after.value.exitedAt.Some? && after.value.parentGuid == before.value.parentGuid
      else SameOrNew(before, after)
    case _ =>
      && after.Some?
      && (if before.Some? then
            after.value.exitedAt == before.value.exitedAt && after.value.parentGuid == before.value.parentGuid
          else after.value.exitedAt.None?)
  }

  lemma PlainReportFind(p: Plain, cfg: Config, ev: Event, e: Option<Row>, r2: ReadResult, g: Guid)
    ensures SameOrNew(Lookup(p, g), Lookup(PlainReport(p, cfg, ev, e, r2).table, g))
  {
  }

  lemma PlainRecordFind(p: Plain, cfg: Config, ev: Event, r1: ReadResult, now: int, g: Guid)
    requires ev.kind.KindFork? ==> ev.Self() != ev.HeaderParent()
    requires g in p.m ==> p.m[g].guid == g
    requires ev.Self() in p.m ==> p.m[ev.Self()].guid == ev.Self()
    ensures var after := Lookup(PlainRecord(p, cfg, ev, r1, now).table, g);
            if g == ev.Self() then OwnLookup(ev, Lookup(p, g), after) else SameOrNew(Lookup(p, g), after)
  {
  }

  /** Handle marks its own process on exit, has it resident after fork and exec, and spares all others. */
  lemma HandleFind(t: Table, cfg: Config, ev: Event, r1: ReadResult, r2: ReadResult, now: int, g: Guid)
    requires Core(t, cfg) && cfg.maxEntries >= 1 && (ev.kind.KindFork? ==> ev.Self() != ev.HeaderParent())
    requires Roomy(t, Handle(t, cfg, ev, r1, r2, now).table)
    ensures var after := Find(Handle(t, cfg, ev, r1, r2, now).table.rows, g);
            if g == ev.Self() then OwnLookup(ev, Find(t.rows, g), after) else SameOrNew(Find(t.rows, g), after)
  {
    var p := PlainOf(t);
    var q := PlainRecord(p, cfg, ev, r1, now);
    SimHandle(t, cfg, p, ev, r1, r2, now);
    PlainRecordFind(p, cfg, ev, r1, now, g);
    PlainReportFind(q.table, cfg, ev, q.row, r2, g);
    assert Lookup(p, g) == Find(t.rows, g);
    assert Lookup(PlainHandle(p, cfg, ev, r1, r2, now).table, g) == Find(Handle(t, cfg, ev, r1, r2, now).table.rows, g);
  }

  /** Among the first k scanned records there is one of this process that passed the scope test. */
  ghost predicate Accepted(procs: seq<ProcInfo>, scope: seq<bool>, k: nat, g: Guid)
    requires k <= |procs| == |scope|
  {
    exists i :: 0 <= i < k && scope[i] && GuidOf(procs[i].pid, procs[i].start) == g
  }

  lemma AcceptedNext(procs: seq<ProcInfo>, scope: seq<bool>, k: nat, g: Guid)
    requires k < |procs| == |scope|
    ensures Accepted(procs, scope, k + 1, g) <==>
            Accepted(procs, scope, k, g) || (scope[k] && GuidOf(procs[k].pid, procs[k].start) == g)
  {
  }

  /** Seeding an empty table makes exactly the accepted processes resident, none marked exited. */
  lemma {:induction false} SeedFind(cfg: Config, procs: seq<ProcInfo>, scope: seq<bool>, k: nat, g: Guid)
    requires k <= |procs| == |scope| && Roomy(EMPTY, SeedTo(EMPTY, cfg, procs, scope, k).table)
    ensures var r := Find(SeedTo(EMPTY, cfg, procs, scope, k).table.rows, g);
            (r.Some? <==> Accepted(procs, scope, k, g)) && (r.Some? ==> r.value.exitedAt.None?)
  {
    if k > 0 {
      var t := SeedTo(EMPTY, cfg, procs, scope, k - 1).table;
      var row := SeedRow(Starts(procs), procs[k - 1]);
      SeedEvictions(EMPTY, cfg, procs, scope, k - 1);
      SeedFind(cfg, procs, scope, k - 1, g);
      AcceptedNext(procs, scope, k - 1, g);
      if scope[k - 1] && row.guid !in Keys(t.rows) {
        assert Insert(t, row, cfg.maxEntries).rows == [row] + t.rows;
        FindCons(row, t.rows, g);
      }
    }
  }
}
