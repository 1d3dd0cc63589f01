/**
 * What the table records and reports, said on the inputs: the process half of an enriched event,
 * the rows that seed, fork, exec, exit and /proc make, and what a sweep takes away.
 */
module Enrichment {
  import opened Types
  import opened Events
  import opened TableSpec
  import opened TableProps
  import opened PlainTable

  /** /proc may be asked, answers, and the answer has the same start in 10 ms ticks. */
  predicate Confirmed(cfg: Config, pid: Uint32, start: Uint64, read: ReadResult) {
    cfg.procOn && pid != 0 && read.ReadOk? && read.info.start / 10_000_000 == start / 10_000_000
  }

  // -------------------------------------------------------------- parents

  /** parent: the resident row, else one made of the confirmed /proc answer, else none; and the counters. */
  lemma ParentResolved(t: Table, cfg: Config, g: Guid, pid: Uint32, start: Uint64, read: ReadResult)
    ensures var p := Resolve(t, cfg, g, pid, start, read);
            var known, confirmed := Find(t.rows, g), Confirmed(cfg, pid, start, read);
            && (known.Some? ==> p.row == known)
            && (known.None? && confirmed ==>
                  var i := read.info;
                  p.row == Some(Row(g, None, i.pid, i.ppid, i.start, i.image, i.argv, i.cgroup, !read.inScope, None)))
            && (known.None? && !confirmed ==> p.row == None)
            && p.table.stats.procLookups == t.stats.procLookups + (if known.None? && confirmed then 1 else 0)
            && p.table.stats.procMisses ==
                 t.stats.procMisses + (if known.None? && cfg.procOn && pid != 0 && !confirmed then 1 else 0)
  {
  }

  // ------------------------------------------------- the event's process

  /** The image and argv of a process just forked: those of its parent, as far as they can be known. */
  predicate Inherits(t: Table, cfg: Config, ev: Event, read: ReadResult, image: Text, argv: seq<Text>) {
    var parent := Find(t.rows, GuidOf(ev.parent.pid, ev.parent.start));
    if parent.Some? then image == parent.value.image && argv == parent.value.argv
    else if Confirmed(cfg, ev.parent.pid, ev.parent.start, read) then image == read.info.image && argv == read.info.argv
    else image == [] && argv == []
  }

  // ----------------------------------------------------- the recorded row

  lemma {:induction false} FindTake(rows: seq<Row>, n: nat, g: Guid)
    requires n <= |rows| && g in Keys(rows[..n])
    ensures Find(rows[..n], g) == Find(rows, g)
  {
    if rows[0].guid != g {
      assert rows[..n] == [rows[0]] + rows[1..][..n - 1];
      FindCons(rows[0], rows[1..][..n - 1], g);
      FindTake(rows[1..], n - 1, g);
    }
  }

  /** Inserting another key changes a row only by evicting it. */
  lemma InsertKeeps(t: Table, row: Row, max: nat, g: Guid)
    requires g != row.guid && g in Keys(Insert(t, row, max).rows)
    ensures Find(Insert(t, row, max).rows, g) == Find(t.rows, g)
  {
    var rows := [row] + t.rows;
    FindCons(row, t.rows, g);
    if |rows| > max { FindTake(rows, max, g); }
  }

  lemma ResolveKeeps(t: Table, cfg: Config, g: Guid, pid: Uint32, start: Uint64, read: ReadResult, k: Guid)
    requires Find(t.rows, k).Some? && k in Keys(Resolve(t, cfg, g, pid, start, read).table.rows)
    ensures Find(Resolve(t, cfg, g, pid, start, read).table.rows, k) == Find(t.rows, k)
  {
    var known := Find(t.rows, g);
    if known.Some? {
      FindTouch(t, known.value, k);
    } else if Trusted(cfg, pid, start, read) {
      var t1 := t.(stats := t.stats.(procLookups := t.stats.procLookups + 1));
      InsertKeeps(t1, ProcRow(g, read.info, read.inScope), cfg.maxEntries, k);
    }
  }

  lemma ReportKeeps(t: Table, cfg: Config, ev: Event, e: Option<Row>, read: ReadResult, k: Guid)
    requires Find(t.rows, k).Some? && k in Keys(Report(t, cfg, ev, e, read).table.rows)
    ensures Find(Report(t, cfg, ev, e, read).table.rows, k) == Find(t.rows, k)
  {
    var orig := ReportedParent(t, ev, e);
    if orig.row.Some? {
      FindTouch(t, orig.row.value, k);
      ResolveKeeps(orig.table, cfg, orig.row.value.guid, orig.row.value.pid, orig.row.value.start, read, k);
    } else {
      ResolveKeeps(t, cfg, ev.HeaderParent(), ev.parent.pid, ev.parent.start, read, k);
    }
  }

  /** The row a process has after its event: what was known of it, brought up to date. */
  ghost predicate Recorded(t: Table, cfg: Config, ev: Event, r1: ReadResult, now: int, row: Row) {
    var p, q := ev.process, ev.parent;
    var known := Find(t.rows, GuidOf(p.pid, p.start));
    match ev.kind
    case KindExec =>
      if known.Some? then row == known.value.(image := p.image, argv := p.argv, external := false)
      else row == Row(GuidOf(p.pid, p.start), Some(GuidOf(q.pid, q.start)), p.pid, q.pid, p.start,
                      p.image, p.argv, p.cgroup, false, None)
    case KindFork =>
      if known.Some? then row == known.value
      else
        && Inherits(t, cfg, ev, r1, row.image, row.argv)
        && row == Row(GuidOf(p.pid, p.start), Some(GuidOf(q.pid, q.start)), p.pid, q.pid, p.start,
                      row.image, row.argv, p.cgroup, false, None)
    case KindExit =>
      && known.Some?
      && row == if known.value.exitedAt.None? then known.value.(exitedAt := Some(now)) else known.value
  }

  lemma ForkRecorded(t: Table, cfg: Config, ev: Event, r1: ReadResult, now: int)
    requires ev.kind.KindFork?
    ensures var got := Record(t, cfg, ev, r1, now);
            got.row.Some? && Recorded(t, cfg, ev, r1, now, got.row.value)
  {
    ParentResolved(t, cfg, GuidOf(ev.parent.pid, ev.parent.start), ev.parent.pid, ev.parent.start, r1);
  }

  lemma ExecRecorded(t: Table, cfg: Config, ev: Event, r1: ReadResult, now: int)
    requires ev.kind.KindExec?
    ensures var got := Record(t, cfg, ev, r1, now);
            got.row.Some? && Recorded(t, cfg, ev, r1, now, got.row.value)
  {
  }

  lemma ExitRecorded(t: Table, cfg: Config, ev: Event, r1: ReadResult, now: int)
    requires ev.kind.KindExit?
    ensures var got := Record(t, cfg, ev, r1, now);
            && (got.row.Some? <==> Find(t.rows, ev.Self()).Some?)
            && (got.row.Some? ==> Recorded(t, cfg, ev, r1, now, got.row.value))
  {
  }

  lemma RowRecorded(t: Table, cfg: Config, ev: Event, r1: ReadResult, now: int)
    ensures var got := Record(t, cfg, ev, r1, now);
            && (got.row.Some? <==> !ev.kind.KindExit? || Find(t.rows, ev.Self()).Some?)
            && (got.row.Some? ==> Recorded(t, cfg, ev, r1, now, got.row.value))
  {
    match ev.kind
    case KindFork => ForkRecorded(t, cfg, ev, r1, now);
    case KindExec => ExecRecorded(t, cfg, ev, r1, now);
    case KindExit => ExitRecorded(t, cfg, ev, r1, now);
  }

  /** The recorded row is the one found under the process's key. */
  lemma RecordFinds(t: Table, cfg: Config, ev: Event, r1: ReadResult, now: int)
    requires cfg.maxEntries >= 1
    ensures var got := Record(t, cfg, ev, r1, now);
            got.row.Some? ==> Find(got.table.rows, ev.Self()) == got.row
  {
    match ev.kind
    case KindFork =>
    case KindExec =>
    case KindExit =>
  }

  /**
   * The process half of an enriched event. Only GUID, image and argv are filled in: an exec
   * keeps its own image; a fork or exit of a resident process shows that entry's; a fork of an
   * unknown one shows its parent's; an exit of an unknown one is left as it is.
   */
  lemma ReportedProcessExact(t: Table, cfg: Config, ev: Event, r1: ReadResult, r2: ReadResult, now: int)
    ensures var h := Handle(t, cfg, ev, r1, r2, now).event;
            var p, g := h.process, GuidOf(ev.process.pid, ev.process.start);
            var known := Find(t.rows, g);
            && h == ev.(process := p, parent := h.parent)
            && p == ev.process.(guid := Some(g), image := p.image, argv := p.argv)
            && (ev.kind.KindExec? ==> p.image == ev.process.image && p.argv == ev.process.argv)
            && (!ev.kind.KindExec? && known.Some? ==> p.image == known.value.image && p.argv == known.value.argv)
            && (ev.kind.KindFork? && known.None? ==> Inherits(t, cfg, ev, r1, p.image, p.argv))
            && (ev.kind.KindExit? && known.None? ==> p.image == ev.process.image && p.argv == ev.process.argv)
  {
    RowRecorded(t, cfg, ev, r1, now);
  }

  /** What the table records of the event's own process, if it is still resident afterwards. */
  lemma OwnRowRecorded(t: Table, cfg: Config, ev: Event, r1: ReadResult, r2: ReadResult, now: int)
    requires cfg.maxEntries >= 1
    ensures var row := Find(Handle(t, cfg, ev, r1, r2, now).table.rows, ev.Self());
            row.Some? && (ev.kind.KindExit? ==> Find(t.rows, ev.Self()).Some?) ==>
              Recorded(t, cfg, ev, r1, now, row.value)
  {
    var got := Record(t, cfg, ev, r1, now);
    RowRecorded(t, cfg, ev, r1, now);
    RecordFinds(t, cfg, ev, r1, now);
    if got.row.Some? && Find(Handle(t, cfg, ev, r1, r2, now).table.rows, ev.Self()).Some? {
      ReportKeeps(got.table, cfg, ev, got.row, r2, ev.Self());
    }
  }

  // --------------------------------------------------- a parent from /proc

  lemma TouchThenSet(t: Table, r: Row, row: Row, g: Guid)
    requires Find(t.rows, r.guid) == Some(r) && row.guid == r.guid && g != r.guid
    ensures Find(SetFront(Touch(t, r), row).rows, g) == Find(t.rows, g)
  {
    FindTouch(t, r, g);
    FindSetFront(Touch(t, r), row, g);
  }

  /** What Record leaves of the table, for a process that is resident: at most its own row is set. */
  lemma KnownRecord(t: Table, cfg: Config, ev: Event, r1: ReadResult, now: int, r: Row)
    requires Find(t.rows, ev.Self()) == Some(r)
    ensures var after := Record(t, cfg, ev, r1, now).table;
            || after == Touch(t, r)
            || after == SetFront(Touch(t, r), r.(image := ev.process.image, argv := ev.process.argv, external := false))
            || after == SetFront(Touch(t, r), r.(exitedAt := Some(now)))
  {
  }

  /** So it leaves every other key alone. */
  lemma KnownKeeps(t: Table, cfg: Config, ev: Event, r1: ReadResult, now: int, g: Guid)
    requires Find(t.rows, ev.Self()).Some? && g != ev.Self()
    ensures Find(Record(t, cfg, ev, r1, now).table.rows, g) == Find(t.rows, g)
  {
    var r := Find(t.rows, ev.Self()).value;
    KnownRecord(t, cfg, ev, r1, now, r);
    FindTouch(t, r, g);
    TouchThenSet(t, r, r.(image := ev.process.image, argv := ev.process.argv, external := false), g);
    TouchThenSet(t, r, r.(exitedAt := Some(now)), g);
  }

  /** A new exec makes only its own key resident; an unknown exit none. */
  lemma UnknownAdds(t: Table, cfg: Config, ev: Event, r1: ReadResult, now: int, g: Guid)
    requires Find(t.rows, ev.Self()).None? && g != ev.Self() && Find(t.rows, g).None? && !ev.kind.KindFork?
    ensures Find(Record(t, cfg, ev, r1, now).table.rows, g).None?
  {
    if ev.kind.KindExec? {
      var t1 := Insert(t, NewRow(ev), cfg.maxEntries);
      if g in Keys(t1.rows) { InsertKeeps(t, NewRow(ev), cfg.maxEntries, g); }
      if t1.rows != [] { FindSetFront(t1, RecordExec(Get(t, ev.Self()), cfg, ev).row.value, g); }
    }
  }

  /** A new fork reports the parent it has just read, if both fit. */
  lemma NewForkParent(t: Table, cfg: Config, ev: Event, r1: ReadResult, r2: ReadResult, now: int)
    requires ev.kind.KindFork? && Find(t.rows, ev.Self()).None? && cfg.maxEntries >= 2
    requires ev.HeaderParent() != ev.Self() && Find(t.rows, ev.HeaderParent()).None?
    requires Confirmed(cfg, ev.parent.pid, ev.parent.start, r1)
    ensures var p := Handle(t, cfg, ev, r1, r2, now).event.parent;
            p.known && p.external == !r1.inScope && p.image == r1.info.image && p.argv == r1.info.argv
  {
    var got, h := Record(t, cfg, ev, r1, now), ev.HeaderParent();
    ForkRecorded(t, cfg, ev, r1, now);
    ParentResolved(t, cfg, h, ev.parent.pid, ev.parent.start, r1);
    NewForkKeepsParent(t, cfg, ev, r1, now);
    ParentResolved(got.table, cfg, h, ev.parent.pid, ev.parent.start, r2);
  }

  /** No recorded parent other than the header's is resident. */
  predicate Orphaned(rows: seq<Row>, ev: Event) {
    var known := Find(rows, ev.Self());
    known.Some? && known.value.parentGuid.Some? ==> Find(rows, known.value.parentGuid.value).None?
  }

  lemma StaysUnknown(t: Table, cfg: Config, ev: Event, r1: ReadResult, now: int, g: Guid)
    requires Find(t.rows, g).None? && g != ev.Self() && (ev.kind.KindFork? ==> Find(t.rows, ev.Self()).Some?)
    ensures Find(Record(t, cfg, ev, r1, now).table.rows, g).None?
  {
    if Find(t.rows, ev.Self()).Some? {
      KnownKeeps(t, cfg, ev, r1, now, g);
    } else {
      UnknownAdds(t, cfg, ev, r1, now, g);
    }
  }

  /** The parent a process has recorded, if any, is not resident or is the header's. */
  lemma NoOriginal(t: Table, cfg: Config, ev: Event, r1: ReadResult, now: int)
    requires Orphaned(t.rows, ev) && (ev.kind.KindFork? ==> Find(t.rows, ev.Self()).Some?)
    ensures var got := Record(t, cfg, ev, r1, now);
            ReportedParent(got.table, ev, got.row) == Got(got.table, None)
  {
    var known := Find(t.rows, ev.Self());
    RowRecorded(t, cfg, ev, r1, now);
    if known.Some? && known.value.parentGuid.Some? { StaysUnknown(t, cfg, ev, r1, now, known.value.parentGuid.value); }
  }

  /**
   * A parent that was not resident and is confirmed by /proc is reported from that answer:
   * external exactly if its cgroup is out of scope.
   */
  lemma NewParentReported(t: Table, cfg: Config, ev: Event, r1: ReadResult, r2: ReadResult, now: int)
    requires ev.HeaderParent() != ev.Self() && Find(t.rows, ev.HeaderParent()).None? && Orphaned(t.rows, ev)
    requires ev.kind.KindFork? ==> Find(t.rows, ev.Self()).Some?
    requires Confirmed(cfg, ev.parent.pid, ev.parent.start, r2)
    ensures var p := Handle(t, cfg, ev, r1, r2, now).event.parent;
            p.known && p.external == !r2.inScope && p.image == r2.info.image && p.argv == r2.info.argv
  {
    var got, h := Record(t, cfg, ev, r1, now), ev.HeaderParent();
    NoOriginal(t, cfg, ev, r1, now);
    StaysUnknown(t, cfg, ev, r1, now, h);
    ParentResolved(got.table, cfg, h, ev.parent.pid, ev.parent.start, r2);
  }

  lemma NewForkKeepsParent(t: Table, cfg: Config, ev: Event, r1: ReadResult, now: int)
    requires ev.kind.KindFork? && Find(t.rows, ev.Self()).None? && ev.HeaderParent() != ev.Self() && cfg.maxEntries >= 2
    ensures var up := Resolve(t, cfg, ev.HeaderParent(), ev.parent.pid, ev.parent.start, r1);
            up.row.Some? ==> Find(Record(t, cfg, ev, r1, now).table.rows, ev.HeaderParent()) == up.row
  {
    var up := Resolve(t, cfg, ev.HeaderParent(), ev.parent.pid, ev.parent.start, r1);
    var got := Record(t, cfg, ev, r1, now);
    if up.row.Some? {
      assert up.table.rows[0] == up.row.value;
      assert got.table.rows[1] == up.row.value;
      assert got.table.rows[1] in got.table.rows;
      InsertKeeps(up.table, got.row.value, cfg.maxEntries, ev.HeaderParent());
    }
  }

  // ------------------------------------------------------------------ seed

  /** The last scanned record of a pid. */
  ghost predicate LastOf(procs: seq<ProcInfo>, pid: Uint32, j: int) {
    0 <= j < |procs| && procs[j].pid == pid && forall m :: j < m < |procs| ==> procs[m].pid != pid
  }

  lemma {:induction false} StartsMeans(procs: seq<ProcInfo>, pid: Uint32)
    ensures pid in Starts(procs) ==> exists j :: LastOf(procs, pid, j) && Starts(procs)[pid] == procs[j].start
    ensures pid !in Starts(procs) ==> forall j :: 0 <= j < |procs| ==> procs[j].pid != pid
  {
    if procs != [] {
      var n := |procs| - 1;
      StartsMeans(procs[..n], pid);
      if procs[n].pid == pid {
        assert LastOf(procs, pid, n);
      } else if pid in Starts(procs) {
        var j :| LastOf(procs[..n], pid, j) && Starts(procs[..n])[pid] == procs[..n][j].start;
        assert LastOf(procs, pid, j);
      }
    }
  }

  /** Which parent a scanned process gets: the process last scanned under its parent pid, if any. */
  ghost predicate LinksTo(procs: seq<ProcInfo>, ppid: Uint32, parent: Option<Guid>) {
    if parent.Some? then ppid != 0 && exists j :: LastOf(procs, ppid, j) && parent.value == GuidOf(ppid, procs[j].start)
    else ppid == 0 || forall j :: 0 <= j < |procs| ==> procs[j].pid != ppid
  }

  /** The row is made of record i: its own fields, inside the scope, running, and linked to its parent. */
  ghost predicate MadeOf(procs: seq<ProcInfo>, i: int, r: Row)
    requires 0 <= i < |procs|
  {
    var p := procs[i];
    && r == Row(GuidOf(p.pid, p.start), r.parentGuid, p.pid, p.ppid, p.start, p.image, p.argv, p.cgroup, false, None)
    && LinksTo(procs, p.ppid, r.parentGuid)
  }

  ghost predicate MadeByScan(procs: seq<ProcInfo>, scope: seq<bool>, k: nat, r: Row)
    requires k <= |procs| == |scope|
  {
    exists i :: 0 <= i < k && scope[i] && MadeOf(procs, i, r)
  }

  lemma SeedRowMade(procs: seq<ProcInfo>, i: nat)
    requires i < |procs|
    ensures MadeOf(procs, i, SeedRow(Starts(procs), procs[i]))
  {
    StartsMeans(procs, procs[i].ppid);
  }

  lemma InsertRows(t: Table, row: Row, max: nat, r: Row)
    requires r in Insert(t, row, max).rows
    ensures r == row || r in t.rows
  {
  }

  /** Every row after seeding is an old one or is made of a record that passed the scope test. */
  lemma {:induction false} SeededRows(t: Table, cfg: Config, procs: seq<ProcInfo>, scope: seq<bool>, k: nat, r: Row)
    requires k <= |procs| == |scope| && r in SeedTo(t, cfg, procs, scope, k).table.rows
    ensures r in t.rows || MadeByScan(procs, scope, k, r)
  {
    if k > 0 {
      var before := SeedTo(t, cfg, procs, scope, k - 1).table;
      var row := SeedRow(Starts(procs), procs[k - 1]);
      if r in before.rows {
        SeededRows(t, cfg, procs, scope, k - 1, r);
      } else {
        InsertRows(before, row, cfg.maxEntries, r);
        SeedRowMade(procs, k - 1);
        assert MadeOf(procs, k - 1, r);
      }
    }
  }

  // ----------------------------------------------------------------- sweep

  /** Exited more than the TTL ago. */
  predicate Overdue(r: Row, ttl: int, now: int) {
    r.exitedAt.Some? && r.exitedAt.value + ttl < now
  }

  function OverdueKeys(rows: seq<Row>, ttl: int, now: int): set<Guid> {
    set r | r in rows && Overdue(r, ttl, now) :: r.guid
  }

  /** A sweep takes away exactly the entries that exited more than ExitTTL ago, and counts them. */
  lemma SweepExact(t: Table, cfg: Config, now: int)
    requires Core(t, cfg)
    ensures var s := Sweep(t, cfg, now);
            && (forall g :: Find(s.table.rows, g) ==
                            var r := Find(t.rows, g); if r.Some? && Overdue(r.value, cfg.exitTTL, now) then None else r)
            && s.n == |OverdueKeys(t.rows, cfg.exitTTL, now)|
            && s.table.stats == t.stats.(evictedExit := t.stats.evictedExit + s.n)
  {
    var s, cutoff := Sweep(t, cfg, now), now - cfg.exitTTL;
    assert s.table.rows == Fresh(t.rows, cutoff);
    forall g ensures Find(s.table.rows, g) ==
                     var r := Find(t.rows, g); if r.Some? && Overdue(r.value, cfg.exitTTL, now) then None else r
    {
      FindFresh(t.rows, cutoff, g);
    }
    assert Unique(s.table.rows) by { SweepCore(t, cfg, now); }
    SweepCount(t.rows, s.table.rows, cfg.exitTTL, now);
  }

  lemma OverdueExpired(rows: seq<Row>, ttl: int, now: int)
    ensures OverdueKeys(rows, ttl, now) == ExpiredKeys(rows, now - ttl) <= Keys(rows)
  {
  }

  lemma DifferenceSize(a: set<Guid>, b: set<Guid>)
    requires b <= a
    ensures |a - b| == |a| - |b|
  {
    assert a == (a - b) + b;
  }

  lemma SweepCount(rows: seq<Row>, kept: seq<Row>, ttl: int, now: int)
    requires Unique(rows) && Unique(kept) && kept == Fresh(rows, now - ttl)
    ensures |rows| - |kept| == |OverdueKeys(rows, ttl, now)|
  {
    KeysCount(rows);
    KeysCount(kept);
    OverdueExpired(rows, ttl, now);
    var all, gone := Keys(rows), OverdueKeys(rows, ttl, now);
    assert Keys(kept) == all - gone by { FreshKeys(rows, now - ttl); }
    DifferenceSize(all, gone);
  }
}
