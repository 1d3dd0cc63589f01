/** Lineage theorems of the process table: stability, exact parents, acyclicity, residency. */
module Lineage {
  import opened Types
  import opened Events
  import opened TableSpec
  import opened TableProps

  // ------------------------------------------------ stability over runs

  lemma {:induction false} SteadyRun(cfg: Config, ops: seq<Op>, k: nat)
    requires cfg.maxEntries >= 1 && OpsOk(ops) && k <= |ops|
    ensures Steady(Run(cfg, ops[..k]), Run(cfg, ops))
  {
    if k == |ops| {
      assert ops[..k] == ops;
      RunInvariant(cfg, ops);
      EvolvesRefl(Run(cfg, ops), cfg);
    } else {
      var before := ops[..|ops| - 1];
      assert before[..k] == ops[..k];
      SteadyRun(cfg, before, k);
      RunInvariant(cfg, before);
      StepEvolves(Run(cfg, before), cfg, ops[|ops| - 1]);
      SteadyTrans(Run(cfg, ops[..k]), Run(cfg, before), Run(cfg, ops));
    }
  }

  /** Recording an event of a resident process keeps the keys and the process's lineage. */
  lemma RecordResident(t: Table, cfg: Config, ev: Event, r1: ReadResult, now: int, r: Row)
    requires Unique(t.rows) && r in t.rows && r.guid == ev.Self()
    ensures var got := Record(t, cfg, ev, r1, now);
            got.row.Some? && SameLineage(r, got.row.value) && Keys(got.table.rows) == Keys(t.rows)
  {
    FindUnique(t.rows, r);
    TouchRows(t, r);
    var got := Get(t, ev.Self());
    assert got == Got(Touch(t, r), Some(r));
    match ev.kind
    case KindFork =>
    case KindExec => SetFrontKeys(got.table, RecordExec(got, cfg, ev).row.value);
    case KindExit =>
      if r.exitedAt.None? { SetFrontKeys(got.table, r.(exitedAt := Some(now))); }
  }

  lemma SetFrontKeys(t: Table, row: Row)
    requires t.rows != [] && t.rows[0].guid == row.guid
    ensures Keys(SetFront(t, row).rows) == Keys(t.rows)
  {
    SameKeys(SetFront(t, row).rows, t.rows);
  }

  lemma ReportsRecorded(t: Table, cfg: Config, ev: Event, e: Row, read: ReadResult)
    requires e.parentGuid.Some? && e.parentGuid.value in Keys(t.rows)
    ensures var p := Report(t, cfg, ev, Some(e), read).event.parent;
            p.guid == e.parentGuid && p.known
  {
    GetFinds(t, e.parentGuid.value);
  }

  /** The recorded parent, while resident, is who Handle reports, whatever the header names. */
  lemma RecordedParentReported(t: Table, cfg: Config, ev: Event, r1: ReadResult, r2: ReadResult, now: int, r: Row)
    requires Unique(t.rows)
    requires r in t.rows && r.guid == ev.Self() && r.parentGuid.Some?
    requires r.parentGuid.value in Keys(t.rows)
    ensures var p := Handle(t, cfg, ev, r1, r2, now).event.parent;
            p.guid == r.parentGuid && p.known
  {
    RecordResident(t, cfg, ev, r1, now, r);
    var got := Record(t, cfg, ev, r1, now);
    ReportsRecorded(got.table, cfg, ev, got.row.value, r2);
  }

  /** The part of a history after an earlier one. */
  function Since(log: seq<Mark>, earlier: seq<Mark>): seq<Mark> {
    if |earlier| <= |log| then log[|earlier|..] else []
  }

  /**
   * Lineage is stable under reparenting. A row r seen after k operations and not removed
   * since keeps its parent; an event of that process handled while the recorded parent is
   * resident reports it, whatever parent the event's header names.
   */
  lemma LineageStable(cfg: Config, ops: seq<Op>, k: nat, r: Row, ev: Event, r1: ReadResult, r2: ReadResult, now: int)
    requires cfg.maxEntries >= 1 && OpsOk(ops) && k <= |ops|
    requires r in Run(cfg, ops[..k]).rows && Stays(Since(Run(cfg, ops).log, Run(cfg, ops[..k]).log), r.guid)
    ensures HasLineage(Run(cfg, ops).rows, r)
    ensures ev.Self() == r.guid && r.parentGuid.Some? && r.parentGuid.value in Keys(Run(cfg, ops).rows) ==>
              var p := Handle(Run(cfg, ops), cfg, ev, r1, r2, now).event.parent;
              p.guid == r.parentGuid && p.known
  {
    var t := Run(cfg, ops);
    SteadyRun(cfg, ops, k);
    var i :| 0 <= i < |t.rows| && SameLineage(t.rows[i], r);
    if ev.Self() == r.guid && r.parentGuid.Some? && r.parentGuid.value in Keys(t.rows) {
      RunInvariant(cfg, ops);
      RecordedParentReported(t, cfg, ev, r1, r2, now, t.rows[i]);
    }
  }

  // ------------------------------------------------------- exact parents

  /** Resolve returns the row now at the front under the key asked for, or the key is absent. */
  lemma ResolveExact(t: Table, cfg: Config, g: Guid, pid: Uint32, start: Uint64, read: ReadResult)
    requires cfg.maxEntries >= 1
    ensures var p := Resolve(t, cfg, g, pid, start, read);
            && (p.row.Some? <==> g in Keys(p.table.rows))
            && (p.row.Some? ==> p.table.rows != [] && p.table.rows[0] == p.row.value && p.row.value.guid == g)
  {
    var p := Resolve(t, cfg, g, pid, start, read);
    if p.row.Some? { assert p.table.rows[0] in p.table.rows; }
  }

  lemma KeysExactAt(rows: seq<Row>, r: Row)
    requires KeysExact(rows) && r in rows
    ensures r.guid == GuidOf(r.pid, r.start)
  {
  }

  /** Who is named, before /proc is asked: always an exact identity. */
  lemma NamedExact(t: Table, cfg: Config, ev: Event, e: Option<Row>, read: ReadResult)
    requires KeysExact(t.rows)
    ensures var p := Report(t, cfg, ev, e, read).event.parent;
            p.guid == Some(GuidOf(p.pid, p.start))
  {
    var orig := ReportedParent(t, ev, e);
    if orig.row.Some? { KeysExactAt(t.rows, orig.row.value); }
  }

  /**
   * The reported parent is exact: its GUID is that of its pid and start time, it is known
   * exactly when that GUID is in the table afterwards, and what is said about it comes from
   * the row with the same pid and start tick. A reused pid is never reported.
   */
  lemma ReportedParentExact(t: Table, cfg: Config, ev: Event, r1: ReadResult, r2: ReadResult, now: int)
    requires Core(t, cfg) && KeysExact(t.rows) && cfg.maxEntries >= 1
    requires OpOk(HandleOp(ev, r1, r2, now)) && !ev.parent.known
    ensures var h := Handle(t, cfg, ev, r1, r2, now);
            var p := h.event.parent;
            && p.guid == Some(GuidOf(p.pid, p.start))
            && (p.known <==> GuidOf(p.pid, p.start) in Keys(h.table.rows))
            && (p.known ==>
                  && h.table.rows != []
                  && var row := h.table.rows[0];
                     && row.pid == p.pid && StartTicks(row.start) == StartTicks(p.start)
                     && p.image == row.image && p.argv == row.argv && p.external == row.external)
            && (!p.known ==> p.image == ev.parent.image && p.argv == ev.parent.argv && p.external == ev.parent.external)
  {
    var op := HandleOp(ev, r1, r2, now);
    var h := Handle(t, cfg, ev, r1, r2, now);
    var got := Record(t, cfg, ev, r1, now);
    RecordKeysExact(t, cfg, ev, r1, now);
    NamedExact(got.table, cfg, ev, got.row, r2);
    var orig := ReportedParent(got.table, ev, got.row);
    var p := h.event.parent;
    ResolveExact(orig.table, cfg, p.guid.value, p.pid, p.start, r2);
    StepKeysExact(t, cfg, op);
    if p.known { KeysExactAt(h.table.rows, h.table.rows[0]); }
  }

  lemma RecordKeysExact(t: Table, cfg: Config, ev: Event, r1: ReadResult, now: int)
    requires Core(t, cfg) && KeysExact(t.rows) && cfg.maxEntries >= 1
    requires AnswersFor(r1, ev.parent.pid) && (ev.kind.KindFork? ==> ev.Self() != ev.HeaderParent())
    ensures KeysExact(Record(t, cfg, ev, r1, now).table.rows)
  {
    var t' := Record(t, cfg, ev, r1, now).table;
    var news := {NewRow(ev)} + ProcNews(cfg, ev.HeaderParent(), ev.parent.pid, ev.parent.start, r1);
    assert Sprung(t, t', news) by { RecordEvolves(t, cfg, ev, r1, now); }
    forall i | 0 <= i < |t'.rows| ensures t'.rows[i].guid == GuidOf(t'.rows[i].pid, t'.rows[i].start) {
      var r := t'.rows[i];
      assert r in t'.rows;
      if !HasLineage(t.rows, r) { var n :| n in news && SameLineage(n, r); }
    }
  }

  // ----------------------------------------------------------- residency

  /** After a fork or exec is recorded, its process's row is at the front. */
  lemma RecordedAtFront(t: Table, cfg: Config, ev: Event, r1: ReadResult, now: int)
    requires cfg.maxEntries >= 1 && !ev.kind.KindExit?
    ensures var got := Record(t, cfg, ev, r1, now);
            got.table.rows != [] && got.row == Some(got.table.rows[0]) && got.row.value.guid == ev.Self()
  {
  }

  /** The front row survives Resolve unless a one-row table takes in another key from /proc. */
  lemma ResolveKeepsFront(t: Table, cfg: Config, g: Guid, pid: Uint32, start: Uint64, read: ReadResult)
    requires Unique(t.rows) && t.rows != [] && |t.rows| <= cfg.maxEntries
    ensures var p := Resolve(t, cfg, g, pid, start, read);
            t.rows[0].guid in Keys(p.table.rows) <==>
              cfg.maxEntries >= 2 || g == t.rows[0].guid || !Trusted(cfg, pid, start, read)
  {
    var p := Resolve(t, cfg, g, pid, start, read);
    var self := t.rows[0];
    var r := Find(t.rows, g);
    assert self.guid in Keys(t.rows);
    if r.Some? {
      TouchRows(t, r.value);
      if cfg.maxEntries == 1 { assert t.rows == [self]; }
    } else if p.row.Some? {
      assert p.table.rows[0].guid == g;
      if cfg.maxEntries >= 2 {
        assert p.table.rows[1] == self;
      } else {
        assert p.table.rows == [p.row.value];
      }
    }
  }

  /** So it survives Report, unless a one-row table takes in the header's parent. */
  lemma ReportKeepsFront(t: Table, cfg: Config, ev: Event, e: Option<Row>, read: ReadResult)
    requires Unique(t.rows) && t.rows != [] && |t.rows| <= cfg.maxEntries
    ensures var self := t.rows[0].guid;
            self in Keys(Report(t, cfg, ev, e, read).table.rows) <==>
              || cfg.maxEntries >= 2 || ev.HeaderParent() == self
              || (e.Some? && e.value.parentGuid == Some(self)) || !Trusted(cfg, ev.parent.pid, ev.parent.start, read)
  {
    var orig := ReportedParent(t, ev, e);
    assert t.rows[0].guid in Keys(t.rows);
    if orig.row.Some? {
      var r := orig.row.value;
      TouchRows(t, r);
      GetFinds(t, r.guid);
      KeysAfterGet(t, r);
      if cfg.maxEntries == 1 { assert t.rows == [r]; }
    } else {
      ResolveKeepsFront(t, cfg, ev.HeaderParent(), ev.parent.pid, ev.parent.start, read);
    }
  }

  /** Asking twice for the same resident row keeps the keys. */
  lemma KeysAfterGet(t: Table, r: Row)
    requires Unique(t.rows) && r in t.rows
    ensures Keys(Get(Touch(t, r), r.guid).table.rows) == Keys(t.rows)
  {
    TouchRows(t, r);
    var t1 := Touch(t, r);
    assert Find(t1.rows, r.guid) == Some(r);
    assert Without(t1.rows, r.guid) == Without(Without(t.rows, r.guid), r.guid);
    forall k | k in Keys(t1.rows) ensures k in Keys(Touch(t1, r).rows) {
      var x :| x in t1.rows && x.guid == k;
      if k == r.guid { assert r in Touch(t1, r).rows; } else { assert x in Touch(t1, r).rows; }
    }
  }

  /** The row already records this parent. */
  predicate Records(rows: seq<Row>, g: Guid, parent: Guid) {
    Find(rows, g).Some? && Find(rows, g).value.parentGuid == Some(parent)
  }

  /** Recording a fork or exec keeps a recorded parent; a new row records the header's. */
  lemma RecordedParent(t: Table, cfg: Config, ev: Event, r1: ReadResult, now: int)
    requires !ev.kind.KindExit?
    ensures var got := Record(t, cfg, ev, r1, now);
            && got.row.Some?
            && var known := Find(t.rows, ev.Self());
               got.row.value.parentGuid == if known.Some? then known.value.parentGuid else Some(ev.HeaderParent())
  {
  }

  /**
   * A fork or exec leaves its process resident, except in a table of one row when the parent
   * is another process that /proc confirms and the process is not recorded as its own parent.
   */
  lemma OwnEntryResident(t: Table, cfg: Config, ev: Event, r1: ReadResult, r2: ReadResult, now: int)
    requires Core(t, cfg) && cfg.maxEntries >= 1 && OpOk(HandleOp(ev, r1, r2, now)) && !ev.kind.KindExit?
    ensures ev.Self() in Keys(Handle(t, cfg, ev, r1, r2, now).table.rows) <==>
              || cfg.maxEntries >= 2 || ev.HeaderParent() == ev.Self()
              || Records(t.rows, ev.Self(), ev.Self()) || !Trusted(cfg, ev.parent.pid, ev.parent.start, r2)
  {
    var got := Record(t, cfg, ev, r1, now);
    assert Core(got.table, cfg) by { RecordEvolves(t, cfg, ev, r1, now); }
    RecordedAtFront(t, cfg, ev, r1, now);
    RecordedParent(t, cfg, ev, r1, now);
    ReportKeepsFront(got.table, cfg, ev, got.row, r2);
  }

  /** A table of one row loses the process it was just told about, and keeps its parent. */
  lemma OneEntryLosesItself(ttl: int, image: Text, argv: seq<Text>, now: int)
    ensures var ev := Event(KindExec, 0,
                            Process(None, 5, 5, 0, 0, 7, 0, [], image, argv, false, false, false),
                            Parent(None, 1, 0, [], [], false, false), None);
            var read := ReadOk(ProcInfo(1, 0, 0, [], [], 7), true);
            var rows := Handle(EMPTY, Config(1, ttl, true), ev, ReadFailed, read, now).table.rows;
            ev.Self() !in Keys(rows) && ev.HeaderParent() in Keys(rows)
  {
    var cfg := Config(1, ttl, true);
    var ev := Event(KindExec, 0,
                    Process(None, 5, 5, 0, 0, 7, 0, [], image, argv, false, false, false),
                    Parent(None, 1, 0, [], [], false, false), None);
    var read := ReadOk(ProcInfo(1, 0, 0, [], [], 7), true);
    RunInvariant(cfg, []);
    OwnEntryResident(EMPTY, cfg, ev, ReadFailed, read, now);
    ReportedParentExact(EMPTY, cfg, ev, ReadFailed, read, now);
  }

  // -------------------------------------------------------- acyclicity

  /** Every recorded parent is earlier in the birth order. */
  ghost predicate BornLater(r: Row, rank: Guid -> nat) {
    r.parentGuid.Some? ==> rank(r.parentGuid.value) < rank(r.guid)
  }

  ghost predicate Ordered(rows: seq<Row>, rank: Guid -> nat) {
    forall i :: 0 <= i < |rows| ==> BornLater(rows[i], rank)
  }

  /** The operation names only parents earlier in the birth order. */
  ghost predicate OpOrdered(op: Op, rank: Guid -> nat) {
    match op
    case SeedOp(procs, _) => forall p :: p in procs ==> BornLater(SeedRow(Starts(procs), p), rank)
    case HandleOp(ev, _, _, _) => !ev.kind.KindExit? ==> rank(ev.HeaderParent()) < rank(ev.Self())
    case _ => true
  }

  lemma NewsOrdered(cfg: Config, op: Op, rank: Guid -> nat, n: Row)
    requires OpOk(op) && OpOrdered(op, rank) && n in StepNews(cfg, op)
    requires op.HandleOp? ==> !op.ev.kind.KindExit?
    ensures BornLater(n, rank)
  {
    if op.SeedOp? {
      var p :| p in op.procs && n == SeedRow(Starts(op.procs), p);
    }
  }

  /** An exit never adds its own process. */
  lemma ExitNews(t: Table, cfg: Config, ev: Event, r1: ReadResult, r2: ReadResult, now: int)
    requires Core(t, cfg) && cfg.maxEntries >= 1 && ev.kind.KindExit?
    ensures Sprung(t, Handle(t, cfg, ev, r1, r2, now).table,
                   ProcNews(cfg, ev.HeaderParent(), ev.parent.pid, ev.parent.start, r2))
  {
    var got := Record(t, cfg, ev, r1, now);
    var news := ProcNews(cfg, ev.HeaderParent(), ev.parent.pid, ev.parent.start, r2);
    ExitEvolves(t, cfg, ev, now);
    ReportEvolves(got.table, cfg, ev, got.row, r2);
    SprungTrans(t, got.table, Handle(t, cfg, ev, r1, r2, now).table, {}, news);
    assert {} + news == news;
  }

  lemma StepOrdered(t: Table, cfg: Config, op: Op, rank: Guid -> nat)
    requires Core(t, cfg) && cfg.maxEntries >= 1 && OpOk(op) && OpOrdered(op, rank) && Ordered(t.rows, rank)
    ensures Ordered(Step(t, cfg, op).rows, rank)
  {
    var t' := Step(t, cfg, op);
    assert Sprung(t, t', StepNews(cfg, op)) by { StepEvolves(t, cfg, op); }
    if op.HandleOp? && op.ev.kind.KindExit? { ExitNews(t, cfg, op.ev, op.forkRead, op.parentRead, op.now); }
    forall i | 0 <= i < |t'.rows| ensures BornLater(t'.rows[i], rank) {
      var r := t'.rows[i];
      assert r in t'.rows;
      if !HasLineage(t.rows, r) {
        if op.HandleOp? && op.ev.kind.KindExit? {
          assert r.parentGuid.None?;
        } else {
          var n :| n in StepNews(cfg, op) && SameLineage(n, r);
          NewsOrdered(cfg, op, rank, n);
        }
      }
    }
  }

  lemma {:induction false} RunOrdered(cfg: Config, ops: seq<Op>, rank: Guid -> nat)
    requires cfg.maxEntries >= 1 && OpsOk(ops)
    requires forall i :: 0 <= i < |ops| ==> OpOrdered(ops[i], rank)
    ensures Ordered(Run(cfg, ops).rows, rank)
  {
    if ops != [] {
      var before := ops[..|ops| - 1];
      RunOrdered(cfg, before, rank);
      RunInvariant(cfg, before);
      StepOrdered(Run(cfg, before), cfg, ops[|ops| - 1], rank);
    }
  }

  /** Walking ParentGUID links through Lookup, as far as entries are resident. */
  ghost function Walk(rows: seq<Row>, g: Guid, rank: Guid -> nat): (w: seq<Guid>)
    requires Ordered(rows, rank)
    ensures forall k :: k in w ==> k in Keys(rows) && rank(k) <= rank(g)
    decreases rank(g)
  {
    var r := Find(rows, g);
    if r.None? then []
    else
      assert BornLater(r.value, rank);
      [g] + (if r.value.parentGuid.None? then [] else Walk(rows, r.value.parentGuid.value, rank))
  }

  ghost predicate Descending(w: seq<Guid>, rank: Guid -> nat) {
    forall i, j :: 0 <= i < j < |w| ==> rank(w[i]) > rank(w[j])
  }

  lemma {:induction false} WalkDescends(rows: seq<Row>, g: Guid, rank: Guid -> nat)
    requires Ordered(rows, rank)
    ensures Descending(Walk(rows, g, rank), rank)
    decreases rank(g)
  {
    var r := Find(rows, g);
    if r.Some? && r.value.parentGuid.Some? {
      assert BornLater(r.value, rank);
      var tail := Walk(rows, r.value.parentGuid.value, rank);
      WalkDescends(rows, r.value.parentGuid.value, rank);
      var w := [g] + tail;
      assert Walk(rows, g, rank) == w;
      forall i, j | 0 <= i < j < |w| ensures rank(w[i]) > rank(w[j]) {
        assert w[j] == tail[j - 1] && w[j] in tail;
        if i > 0 { assert w[i] == tail[i - 1]; }
      }
    }
  }

  lemma {:induction false} DistinctBound(w: seq<Guid>, keys: set<Guid>)
    requires forall i, j :: 0 <= i < j < |w| ==> w[i] != w[j]
    requires forall k :: k in w ==> k in keys
    ensures |w| <= |keys|
  {
    if w != [] {
      forall k | k in w[1..] ensures k in keys - {w[0]} {
        var i :| 0 <= i < |w[1..]| && w[1..][i] == k;
        assert w[i + 1] == k;
      }
      DistinctBound(w[1..], keys - {w[0]});
    }
  }

  lemma {:induction false} KeysBound(rows: seq<Row>)
    ensures |Keys(rows)| <= |rows|
  {
    if rows == [] {
      assert Keys(rows) == {};
    } else {
      assert rows == [rows[0]] + rows[1..];
      assert Keys(rows) == {rows[0].guid} + Keys(rows[1..]);
      KeysBound(rows[1..]);
    }
  }

  /**
   * In every reachable table, eviction and re-creation included, ParentGUID links form no
   * cycle: a walk from any GUID visits distinct resident entries, at most as many as there are.
   */
  lemma WalkTerminates(cfg: Config, ops: seq<Op>, rank: Guid -> nat, g: Guid)
    requires cfg.maxEntries >= 1 && OpsOk(ops)
    requires forall i :: 0 <= i < |ops| ==> OpOrdered(ops[i], rank)
    ensures Ordered(Run(cfg, ops).rows, rank)
    ensures var rows := Run(cfg, ops).rows;
            var w := Walk(rows, g, rank);
            |w| <= |rows| && forall i, j :: 0 <= i < j < |w| ==> w[i] != w[j]
  {
    RunOrdered(cfg, ops, rank);
    var rows := Run(cfg, ops).rows;
    var w := Walk(rows, g, rank);
    WalkDescends(rows, g, rank);
    DistinctBound(w, Keys(rows));
    KeysBound(rows);
  }
}
