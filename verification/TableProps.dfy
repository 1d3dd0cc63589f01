/**
 * What every run of the process table keeps: structure, recency order, lineage and
 * conservation. Each operation is a chain of primitives; Evolves is what one primitive
 * guarantees, and it composes.
 */
module TableProps {
  import opened Types
  import opened Events
  import opened TableSpec

  // ------------------------------------------------------------- recency

  /** Position of the last use of g in the history, -1 if never used. */
  function LastTouch(log: seq<Mark>, g: Guid): int {
    if log == [] then -1
    else if log[|log| - 1] == Touched(g) then |log| - 1
    else LastTouch(log[..|log| - 1], g)
  }

  ghost predicate ByRecency(rows: seq<Row>, log: seq<Mark>) {
    forall i, j :: 0 <= i < j < |rows| ==> LastTouch(log, rows[i].guid) > LastTouch(log, rows[j].guid)
  }

  lemma {:induction false} LastTouchBound(log: seq<Mark>, g: Guid)
    ensures -1 <= LastTouch(log, g) < |log|
  {
    if log != [] { LastTouchBound(log[..|log| - 1], g); }
  }

  lemma {:induction false} LastTouchAppend(log: seq<Mark>, more: seq<Mark>, g: Guid)
    requires forall i :: 0 <= i < |more| ==> more[i] != Touched(g)
    ensures LastTouch(log + more, g) == LastTouch(log, g)
  {
    if more == [] {
      assert log + more == log;
    } else {
      assert (log + more)[..|log + more| - 1] == log + more[..|more| - 1];
      assert (log + more)[|log + more| - 1] == more[|more| - 1];
      LastTouchAppend(log, more[..|more| - 1], g);
    }
  }

  /** A use makes g the most recent key and leaves every other key's last use alone. */
  lemma LastTouchUse(log: seq<Mark>, g: Guid, k: Guid)
    ensures LastTouch(log + [Touched(g)], g) == |log|
    ensures k != g ==> LastTouch(log + [Touched(g)], k) == LastTouch(log, k) < |log|
  {
    assert (log + [Touched(g)])[..|log|] == log;
    LastTouchBound(log, k);
  }

  function AfterMark(keys: set<Guid>, m: Mark): set<Guid> {
    match m
    case Touched(g) => keys + {g}
    case Evicted(g) => keys - {g}
    case Swept(gs) => keys - gs
  }

  /** Which keys are resident, replayed from the history alone. */
  function Resident(log: seq<Mark>): set<Guid> {
    if log == [] then {} else AfterMark(Resident(log[..|log| - 1]), log[|log| - 1])
  }

  /** The policy of one eviction: every other resident key was used later. */
  ghost predicate LeastRecent(log: seq<Mark>, m: Mark) {
    m.Evicted? ==> forall k :: k in Resident(log) && k != m.guid ==> LastTouch(log, m.guid) < LastTouch(log, k)
  }

  /** A history in which every eviction follows the policy. */
  ghost predicate LruHistory(log: seq<Mark>) {
    forall i :: 0 <= i < |log| ==> LeastRecent(log[..i], log[i])
  }

  lemma HistoryStep(log: seq<Mark>, m: Mark)
    requires LruHistory(log) && LeastRecent(log, m)
    ensures LruHistory(log + [m])
    ensures Resident(log + [m]) == AfterMark(Resident(log), m)
  {
    assert (log + [m])[..|log|] == log;
    forall i | 0 <= i < |log + [m]| ensures LeastRecent((log + [m])[..i], (log + [m])[i]) {
      if i < |log| { assert (log + [m])[..i] == log[..i]; }
    }
  }

  // ----------------------------------------------------- what is preserved

  /**
   * Keys are unique, front-to-back order is recency order, and the history accounts for
   * the resident keys and evicts only least recent ones.
   */
  ghost predicate Consistent(rows: seq<Row>, log: seq<Mark>) {
    Unique(rows) && ByRecency(rows, log) && Keys(rows) == Resident(log) && LruHistory(log)
  }

  /** The structural invariant: consistent and within the cap. */
  ghost predicate Core(t: Table, cfg: Config) {
    Consistent(t.rows, t.log) && |t.rows| <= cfg.maxEntries
  }

  ghost predicate SameLineage(a: Row, b: Row) {
    a.guid == b.guid && a.parentGuid == b.parentGuid && a.pid == b.pid && a.ppid == b.ppid
    && a.start == b.start && a.cgroup == b.cgroup
  }

  ghost predicate HasLineage(rows: seq<Row>, r: Row) {
    exists i :: 0 <= i < |rows| && SameLineage(rows[i], r)
  }

  ghost predicate Removes(m: Mark, g: Guid) {
    m == Evicted(g) || (m.Swept? && g in m.guids)
  }

  ghost predicate Stays(log: seq<Mark>, g: Guid) {
    forall i :: 0 <= i < |log| ==> !Removes(log[i], g)
  }

  /** Rows not marked as removed in between are still there with the same lineage. */
  ghost predicate Steady(t: Table, t': Table) {
    && t.log <= t'.log
    && forall r :: r in t.rows && Stays(t'.log[|t.log|..], r.guid) ==> HasLineage(t'.rows, r)
  }

  /** Every row continues an old one or one of the new ones. */
  ghost predicate Sprung(t: Table, t': Table, news: set<Row>) {
    forall r :: r in t'.rows ==> HasLineage(t.rows, r) || exists n :: n in news && SameLineage(n, r)
  }

  /** Residents and departures, less the rows read from /proc. */
  function Balance(t: Table): int {
    |t.rows| + t.stats.evictedExit + t.stats.evictedLRU - t.stats.procLookups
  }

  ghost predicate Evolves(t: Table, t': Table, cfg: Config, news: set<Row>, minted: int) {
    && Core(t', cfg)
    && Steady(t, t')
    && Sprung(t, t', news)
    && Balance(t') == Balance(t) + minted
    && t.stats.evictedLRU <= t'.stats.evictedLRU
  }

  lemma EvolvesRefl(t: Table, cfg: Config)
    requires Core(t, cfg)
    ensures Evolves(t, t, cfg, {}, 0)
  {
    forall r | r in t.rows ensures HasLineage(t.rows, r) { LineageHere(t.rows, r); }
  }

  lemma LineageHere(rows: seq<Row>, r: Row)
    requires r in rows
    ensures HasLineage(rows, r)
  {
    var i :| 0 <= i < |rows| && rows[i] == r;
    assert SameLineage(rows[i], r);
  }

  lemma StaysSplit(a: seq<Mark>, b: seq<Mark>, g: Guid)
    requires Stays(a + b, g)
    ensures Stays(a, g) && Stays(b, g)
  {
    forall i | 0 <= i < |a| ensures !Removes(a[i], g) { assert (a + b)[i] == a[i]; }
    forall i | 0 <= i < |b| ensures !Removes(b[i], g) { assert (a + b)[|a| + i] == b[i]; }
  }

  lemma SteadyTrans(t: Table, u: Table, v: Table)
    requires Steady(t, u) && Steady(u, v)
    ensures Steady(t, v)
  {
    assert v.log[|t.log|..] == u.log[|t.log|..] + v.log[|u.log|..];
    forall r | r in t.rows && Stays(v.log[|t.log|..], r.guid) ensures HasLineage(v.rows, r) {
      StaysSplit(u.log[|t.log|..], v.log[|u.log|..], r.guid);
      var i :| 0 <= i < |u.rows| && SameLineage(u.rows[i], r);
      assert u.rows[i] in u.rows;
      var j :| 0 <= j < |v.rows| && SameLineage(v.rows[j], u.rows[i]);
      assert SameLineage(v.rows[j], r);
    }
  }

  lemma SprungTrans(t: Table, u: Table, v: Table, n1: set<Row>, n2: set<Row>)
    requires Sprung(t, u, n1) && Sprung(u, v, n2)
    ensures Sprung(t, v, n1 + n2)
  {
    forall r | r in v.rows
      ensures HasLineage(t.rows, r) || exists n :: n in n1 + n2 && SameLineage(n, r)
    {
      if HasLineage(u.rows, r) {
        var i :| 0 <= i < |u.rows| && SameLineage(u.rows[i], r);
        assert u.rows[i] in u.rows;
        if HasLineage(t.rows, u.rows[i]) {
          var j :| 0 <= j < |t.rows| && SameLineage(t.rows[j], u.rows[i]);
          assert SameLineage(t.rows[j], r);
        } else {
          var n :| n in n1 && SameLineage(n, u.rows[i]);
          assert n in n1 + n2 && SameLineage(n, r);
        }
      } else {
        var n :| n in n2 && SameLineage(n, r);
        assert n in n1 + n2;
      }
    }
  }

  lemma EvolvesTrans(t: Table, u: Table, v: Table, cfg: Config, n1: set<Row>, n2: set<Row>, m1: int, m2: int)
    requires Evolves(t, u, cfg, n1, m1) && Evolves(u, v, cfg, n2, m2)
    ensures Evolves(t, v, cfg, n1 + n2, m1 + m2)
  {
    SteadyTrans(t, u, v);
    SprungTrans(t, u, v, n1, n2);
  }

  /** The set of new rows may be enlarged. */
  lemma EvolvesWiden(t: Table, u: Table, cfg: Config, n1: set<Row>, n2: set<Row>, m: int)
    requires Evolves(t, u, cfg, n1, m) && n1 <= n2
    ensures Evolves(t, u, cfg, n2, m)
  {
    forall r | r in u.rows && !HasLineage(t.rows, r) ensures exists n :: n in n2 && SameLineage(n, r) {
      var n :| n in n1 && SameLineage(n, r);
      assert n in n2;
    }
  }

  // ---------------------------------------------------------- primitives

  /** The first row was used after every other one. */
  lemma FirstIsLatest(rows: seq<Row>, log: seq<Mark>, r: Row)
    requires rows != [] && ByRecency(rows, log) && r in rows[1..]
    ensures LastTouch(log, rows[0].guid) > LastTouch(log, r.guid)
  {
    var k :| 0 <= k < |rows[1..]| && rows[1..][k] == r;
    assert rows[k + 1] == r;
  }

  lemma ConsOrder(r: Row, rest: seq<Row>, log: seq<Mark>)
    requires ByRecency(rest, log)
    requires forall x :: x in rest ==> LastTouch(log, r.guid) > LastTouch(log, x.guid)
    ensures ByRecency([r] + rest, log)
  {
    var rows := [r] + rest;
    forall i, j | 0 <= i < j < |rows| ensures LastTouch(log, rows[i].guid) > LastTouch(log, rows[j].guid) {
      assert rows[j] == rest[j - 1] && rows[j] in rest;
      if i > 0 { assert rows[i] == rest[i - 1]; }
    }
  }

  lemma {:induction false} WithoutOrder(rows: seq<Row>, log: seq<Mark>, g: Guid)
    requires ByRecency(rows, log)
    ensures ByRecency(Without(rows, g), log)
  {
    if rows != [] {
      WithoutOrder(rows[1..], log, g);
      var w := Without(rows[1..], g);
      forall r | r in w ensures LastTouch(log, rows[0].guid) > LastTouch(log, r.guid) {
        FirstIsLatest(rows, log, r);
      }
      ConsOrder(rows[0], w, log);
    }
  }

  lemma FirstIsAlone(rows: seq<Row>)
    requires Unique(rows) && rows != []
    ensures rows[0].guid !in Keys(rows[1..]) && Keys(rows) == {rows[0].guid} + Keys(rows[1..])
  {
    assert rows == [rows[0]] + rows[1..];
    forall r | r in rows[1..] ensures r.guid != rows[0].guid {
      var k :| 0 <= k < |rows[1..]| && rows[1..][k] == r;
      assert rows[k + 1] == r;
    }
  }

  lemma {:induction false} WithoutCount(rows: seq<Row>, g: Guid)
    requires Unique(rows)
    ensures |Without(rows, g)| == if g in Keys(rows) then |rows| - 1 else |rows|
  {
    if rows != [] {
      WithoutCount(rows[1..], g);
      FirstIsAlone(rows);
    }
  }

  lemma {:induction false} FindUnique(rows: seq<Row>, r: Row)
    requires Unique(rows) && r in rows
    ensures Find(rows, r.guid) == Some(r)
  {
    var f := Find(rows, r.guid);
    assert r.guid in Keys(rows);
    var i :| 0 <= i < |rows| && rows[i] == r;
    var j :| 0 <= j < |rows| && rows[j] == f.value;
    if i < j { assert rows[i].guid != rows[j].guid; }
    if j < i { assert rows[j].guid != rows[i].guid; }
  }

  lemma TouchOrder(t: Table, r: Row)
    requires Unique(t.rows) && ByRecency(t.rows, t.log) && r in t.rows
    ensures ByRecency(Touch(t, r).rows, Touch(t, r).log) && Unique(Touch(t, r).rows)
  {
    var t' := Touch(t, r);
    var w := Without(t.rows, r.guid);
    WithoutOrder(t.rows, t.log, r.guid);
    forall i, j | 0 <= i < j < |t'.rows|
      ensures t'.rows[i].guid != t'.rows[j].guid
           && LastTouch(t'.log, t'.rows[i].guid) > LastTouch(t'.log, t'.rows[j].guid)
    {
      assert t'.rows[j] == w[j - 1] && t'.rows[j] in w;
      LastTouchUse(t.log, r.guid, t'.rows[j].guid);
      if i > 0 {
        assert t'.rows[i] == w[i - 1] && t'.rows[i] in w;
        LastTouchUse(t.log, r.guid, t'.rows[i].guid);
      }
    }
  }

  /** Moving a resident row to the front keeps the rows. */
  lemma TouchRows(t: Table, r: Row)
    requires Unique(t.rows) && r in t.rows
    ensures forall x :: x in Touch(t, r).rows <==> x in t.rows
    ensures |Touch(t, r).rows| == |t.rows| && Keys(Touch(t, r).rows) == Keys(t.rows)
  {
    WithoutCount(t.rows, r.guid);
    assert r.guid in Keys(t.rows);
    forall x | x in t.rows ensures x in Touch(t, r).rows {
      if x.guid == r.guid { FindUnique(t.rows, x); FindUnique(t.rows, r); }
    }
  }

  lemma TouchEvolves(t: Table, cfg: Config, r: Row)
    requires Core(t, cfg) && r in t.rows
    ensures Evolves(t, Touch(t, r), cfg, {}, 0)
  {
    var t' := Touch(t, r);
    TouchOrder(t, r);
    TouchRows(t, r);
    HistoryStep(t.log, Touched(r.guid));
    assert Keys(t'.rows) == Resident(t'.log) by { assert r.guid in Keys(t.rows); }
    forall x | x in t.rows ensures HasLineage(t'.rows, x) && HasLineage(t.rows, x) {
      LineageHere(t'.rows, x);
      LineageHere(t.rows, x);
    }
  }

  lemma {:induction false} EvictMarksOf(rows: seq<Row>, max: nat)
    ensures forall i :: 0 <= i < |EvictMarks(rows, max)| ==> EvictMarks(rows, max)[i].Evicted?
    ensures forall i :: max <= i < |rows| ==> Evicted(rows[i].guid) in EvictMarks(rows, max)
  {
    if |rows| > max {
      EvictMarksOf(rows[..|rows| - 1], max);
    }
  }

  lemma InsertOrder(t: Table, row: Row, max: nat)
    requires Unique(t.rows) && ByRecency(t.rows, t.log) && row.guid !in Keys(t.rows)
    ensures var all := [row] + t.rows;
            Unique(all) && ByRecency(all, t.log + [Touched(row.guid)])
  {
    var all := [row] + t.rows;
    var log := t.log + [Touched(row.guid)];
    forall i, j | 0 <= i < j < |all|
      ensures all[i].guid != all[j].guid && LastTouch(log, all[i].guid) > LastTouch(log, all[j].guid)
    {
      assert all[j] in t.rows;
      LastTouchUse(t.log, row.guid, all[j].guid);
      if i > 0 {
        assert all[i] in t.rows;
        LastTouchUse(t.log, row.guid, all[i].guid);
      }
    }
  }

  lemma KeysFront(rows: seq<Row>)
    requires Unique(rows) && rows != []
    ensures Keys(rows[..|rows| - 1]) == Keys(rows) - {rows[|rows| - 1].guid}
  {
    var n := |rows| - 1;
    assert rows == rows[..n] + [rows[n]];
    forall r | r in rows[..n] ensures r.guid != rows[n].guid { var i :| 0 <= i < n && rows[i] == r; }
  }

  lemma BackIsLeastRecent(rows: seq<Row>, log: seq<Mark>)
    requires rows != [] && ByRecency(rows, log) && Keys(rows) == Resident(log)
    ensures LeastRecent(log, Evicted(rows[|rows| - 1].guid))
  {
    var last := rows[|rows| - 1].guid;
    forall k | k in Resident(log) && k != last ensures LastTouch(log, last) < LastTouch(log, k) {
      var r :| r in rows && r.guid == k;
      var i :| 0 <= i < |rows| && rows[i] == r;
    }
  }

  lemma EvictOne(rows: seq<Row>, log: seq<Mark>)
    requires Consistent(rows, log) && rows != []
    ensures Consistent(rows[..|rows| - 1], log + [Evicted(rows[|rows| - 1].guid)])
  {
    var m := Evicted(rows[|rows| - 1].guid);
    BackIsLeastRecent(rows, log);
    HistoryStep(log, m);
    KeysFront(rows);
    QuietOrder(rows[..|rows| - 1], log, m);
  }

  lemma Regroup(a: seq<Mark>, b: seq<Mark>, c: seq<Mark>)
    ensures a + b + c == a + (b + c)
  {
  }

  lemma EvictStep(rows: seq<Row>, log: seq<Mark>, max: nat)
    requires |rows| > max
    ensures var n := |rows| - 1;
            && Truncate(rows[..n], max) == Truncate(rows, max)
            && log + [Evicted(rows[n].guid)] + EvictMarks(rows[..n], max) == log + EvictMarks(rows, max)
  {
    var n := |rows| - 1;
    var m := [Evicted(rows[n].guid)];
    var rest := EvictMarks(rows[..n], max);
    assert EvictMarks(rows, max) == m + rest;
    Regroup(log, m, rest);
    assert rows[..n][..max] == rows[..max];
  }

  /** Evicting from the back down to the cap. */
  lemma {:induction false} EvictBack(rows: seq<Row>, log: seq<Mark>, max: nat)
    requires Consistent(rows, log)
    ensures Consistent(Truncate(rows, max), log + EvictMarks(rows, max))
  {
    if |rows| <= max {
      assert log + [] == log;
    } else {
      EvictOne(rows, log);
      EvictBack(rows[..|rows| - 1], log + [Evicted(rows[|rows| - 1].guid)], max);
      EvictStep(rows, log, max);
    }
  }

  lemma InsertCore(t: Table, cfg: Config, row: Row)
    requires Core(t, cfg) && row.guid !in Keys(t.rows)
    ensures Core(Insert(t, row, cfg.maxEntries), cfg)
  {
    var all := [row] + t.rows;
    InsertOrder(t, row, cfg.maxEntries);
    HistoryStep(t.log, Touched(row.guid));
    assert Keys(all) == Keys(t.rows) + {row.guid};
    EvictBack(all, t.log + [Touched(row.guid)], cfg.maxEntries);
  }

  lemma InsertSteady(t: Table, row: Row, max: nat)
    ensures Steady(t, Insert(t, row, max))
  {
    var t' := Insert(t, row, max);
    var all := [row] + t.rows;
    var marks := EvictMarks(all, max);
    EvictMarksOf(all, max);
    var tail := t'.log[|t.log|..];
    assert tail == [Touched(row.guid)] + marks;
    forall r | r in t.rows && Stays(tail, r.guid) ensures HasLineage(t'.rows, r) {
      StaysSplit([Touched(row.guid)], marks, r.guid);
      var i :| 0 <= i < |t.rows| && t.rows[i] == r;
      assert all[i + 1] == r;
      if i + 1 >= max { assert false; }
      assert t'.rows[i + 1] == r;
      LineageHere(t'.rows, r);
    }
  }

  lemma InsertSprung(t: Table, row: Row, max: nat)
    ensures Sprung(t, Insert(t, row, max), {row})
  {
    var t' := Insert(t, row, max);
    forall r | r in t'.rows ensures HasLineage(t.rows, r) || exists n :: n in {row} && SameLineage(n, r) {
      if r == row { assert row in {row} && SameLineage(row, r); } else { LineageHere(t.rows, r); }
    }
  }

  lemma InsertEvolves(t: Table, cfg: Config, row: Row)
    requires Core(t, cfg) && row.guid !in Keys(t.rows)
    ensures Evolves(t, Insert(t, row, cfg.maxEntries), cfg, {row}, 1)
  {
    InsertCore(t, cfg, row);
    InsertSteady(t, row, cfg.maxEntries);
    InsertSprung(t, row, cfg.maxEntries);
  }

  lemma SameKeys(a: seq<Row>, b: seq<Row>)
    requires |a| == |b| && forall i :: 0 <= i < |a| ==> a[i].guid == b[i].guid
    ensures Keys(a) == Keys(b)
  {
    forall g | g in Keys(a) ensures g in Keys(b) {
      var i :| 0 <= i < |a| && a[i].guid == g;
      assert b[i] in b;
    }
    forall g | g in Keys(b) ensures g in Keys(a) {
      var i :| 0 <= i < |b| && b[i].guid == g;
      assert a[i] in a;
    }
  }

  lemma SetFrontCore(t: Table, cfg: Config, row: Row)
    requires Core(t, cfg) && t.rows != [] && t.rows[0].guid == row.guid
    ensures Core(SetFront(t, row), cfg)
  {
    var t' := SetFront(t, row);
    assert forall i :: 0 <= i < |t.rows| ==> t'.rows[i].guid == t.rows[i].guid;
    SameKeys(t.rows, t'.rows);
  }

  lemma SetFrontKeeps(t: Table, row: Row)
    requires t.rows != [] && SameLineage(t.rows[0], row)
    ensures Steady(t, SetFront(t, row)) && Sprung(t, SetFront(t, row), {})
  {
    var t' := SetFront(t, row);
    forall r | r in t.rows ensures HasLineage(t'.rows, r) {
      var i :| 0 <= i < |t.rows| && t.rows[i] == r;
      assert SameLineage(t'.rows[i], r);
    }
    forall r | r in t'.rows ensures HasLineage(t.rows, r) {
      var i :| 0 <= i < |t'.rows| && t'.rows[i] == r;
      assert SameLineage(t.rows[i], r);
    }
  }

  /** Assigning image, argv, external or exitedAt of the front row. */
  lemma SetFrontEvolves(t: Table, cfg: Config, row: Row)
    requires Core(t, cfg) && t.rows != [] && SameLineage(t.rows[0], row)
    ensures Evolves(t, SetFront(t, row), cfg, {}, 0)
  {
    SetFrontCore(t, cfg, row);
    SetFrontKeeps(t, row);
  }

  lemma {:induction false} FreshOrder(rows: seq<Row>, log: seq<Mark>, cutoff: int)
    requires ByRecency(rows, log)
    ensures ByRecency(Fresh(rows, cutoff), log)
  {
    if rows != [] {
      FreshOrder(rows[1..], log, cutoff);
      var f := Fresh(rows[1..], cutoff);
      forall r | r in f ensures LastTouch(log, rows[0].guid) > LastTouch(log, r.guid) {
        FirstIsLatest(rows, log, r);
      }
      ConsOrder(rows[0], f, log);
      assert [] + f == f;
    }
  }

  lemma FreshKeys(rows: seq<Row>, cutoff: int)
    requires Unique(rows)
    ensures Keys(Fresh(rows, cutoff)) == Keys(rows) - ExpiredKeys(rows, cutoff)
  {
    forall r | r in Fresh(rows, cutoff) ensures r.guid !in ExpiredKeys(rows, cutoff) {
      if x :| x in rows && Expired(x, cutoff) && x.guid == r.guid {
        FindUnique(rows, x);
        FindUnique(rows, r);
      }
    }
  }

  /** Marks that are not uses do not disturb the recency order, which implies uniqueness. */
  lemma QuietOrder(rows: seq<Row>, log: seq<Mark>, m: Mark)
    requires ByRecency(rows, log) && !m.Touched?
    ensures ByRecency(rows, log + [m]) && Unique(rows)
  {
    forall i, j | 0 <= i < j < |rows|
      ensures LastTouch(log + [m], rows[i].guid) > LastTouch(log + [m], rows[j].guid) && rows[i].guid != rows[j].guid
    {
      LastTouchAppend(log, [m], rows[i].guid);
      LastTouchAppend(log, [m], rows[j].guid);
    }
  }

  lemma SweepOrder(rows: seq<Row>, log: seq<Mark>, cutoff: int, m: Mark)
    requires ByRecency(rows, log) && !m.Touched?
    ensures ByRecency(Fresh(rows, cutoff), log + [m]) && Unique(Fresh(rows, cutoff))
  {
    FreshOrder(rows, log, cutoff);
    QuietOrder(Fresh(rows, cutoff), log, m);
  }

  lemma SweepConsistent(rows: seq<Row>, log: seq<Mark>, cutoff: int)
    requires Consistent(rows, log)
    ensures Consistent(Fresh(rows, cutoff), log + [Swept(ExpiredKeys(rows, cutoff))])
  {
    var mark := Swept(ExpiredKeys(rows, cutoff));
    SweepOrder(rows, log, cutoff, mark);
    HistoryStep(log, mark);
    assert Keys(Fresh(rows, cutoff)) == Resident(log + [mark]) by { FreshKeys(rows, cutoff); }
  }

  lemma SweepCore(t: Table, cfg: Config, now: int)
    requires Core(t, cfg)
    ensures Core(Sweep(t, cfg, now).table, cfg)
  {
    var t', cutoff := Sweep(t, cfg, now).table, now - cfg.exitTTL;
    assert Consistent(t'.rows, t'.log) by {
      SweepConsistent(t.rows, t.log, cutoff);
      assert t'.rows == Fresh(t.rows, cutoff) && t'.log == t.log + [Swept(ExpiredKeys(t.rows, cutoff))];
    }
  }

  lemma SweepKeeps(t: Table, cfg: Config, now: int)
    ensures var t' := Sweep(t, cfg, now).table; Steady(t, t') && Sprung(t, t', {})
  {
    var t' := Sweep(t, cfg, now).table;
    var mark := Swept(ExpiredKeys(t.rows, now - cfg.exitTTL));
    assert t'.log[|t.log|..] == [mark];
    forall r | r in t.rows && Stays([mark], r.guid) ensures HasLineage(t'.rows, r) {
      assert !Removes([mark][0], r.guid);
      LineageHere(t'.rows, r);
    }
    forall r | r in t'.rows ensures HasLineage(t.rows, r) { LineageHere(t.rows, r); }
  }

  lemma SweepEvolves(t: Table, cfg: Config, now: int)
    requires Core(t, cfg)
    ensures Evolves(t, Sweep(t, cfg, now).table, cfg, {}, 0)
  {
    SweepCore(t, cfg, now);
    SweepKeeps(t, cfg, now);
  }

  // ---------------------------------------------------------- operations

  lemma GetEvolves(t: Table, cfg: Config, g: Guid)
    requires Core(t, cfg)
    ensures Evolves(t, Get(t, g).table, cfg, {}, 0)
  {
    if Get(t, g).row.Some? { TouchEvolves(t, cfg, Get(t, g).row.value); } else { EvolvesRefl(t, cfg); }
  }

  /** The row Resolve may add. */
  function ProcNews(cfg: Config, g: Guid, pid: Uint32, start: Uint64, read: ReadResult): set<Row> {
    if Trusted(cfg, pid, start, read) then {ProcRow(g, read.info, read.inScope)} else {}
  }

  lemma ResolveEvolves(t: Table, cfg: Config, g: Guid, pid: Uint32, start: Uint64, read: ReadResult)
    requires Core(t, cfg)
    ensures Evolves(t, Resolve(t, cfg, g, pid, start, read).table, cfg, ProcNews(cfg, g, pid, start, read), 0)
  {
    var got := Get(t, g);
    var news := ProcNews(cfg, g, pid, start, read);
    GetEvolves(t, cfg, g);
    if got.row.Some? {
      EvolvesWiden(t, got.table, cfg, {}, news, 0);
    } else if Trusted(cfg, pid, start, read) {
      var t1 := t.(stats := t.stats.(procLookups := t.stats.procLookups + 1));
      EvolvesRefl(t, cfg);
      InsertEvolves(t1, cfg, ProcRow(g, read.info, read.inScope));
    } else {
      EvolvesRefl(t, cfg);
      EvolvesWiden(t, t, cfg, {}, news, 0);
    }
  }

  /** What a Handle may add: the process itself, and its header parent read from /proc. */
  function HandleNews(cfg: Config, ev: Event, r1: ReadResult, r2: ReadResult): set<Row> {
    var h := ev.HeaderParent();
    {NewRow(ev)} + ProcNews(cfg, h, ev.parent.pid, ev.parent.start, r1)
    + ProcNews(cfg, h, ev.parent.pid, ev.parent.start, r2)
  }

  /** 1 when the event creates its process's entry. */
  function Mints(t: Table, ev: Event): nat {
    if !ev.kind.KindExit? && ev.Self() !in Keys(t.rows) then 1 else 0
  }

  /** A key is put in the table only if Resolve was asked for it. */
  lemma ResolveKeys(t: Table, cfg: Config, g: Guid, pid: Uint32, start: Uint64, read: ReadResult)
    ensures var t' := Resolve(t, cfg, g, pid, start, read).table;
            forall k :: k in Keys(t'.rows) ==> k in Keys(t.rows) || k == g
  {
    var t' := Resolve(t, cfg, g, pid, start, read).table;
    forall k | k in Keys(t'.rows) ensures k in Keys(t.rows) || k == g {
      var r :| r in t'.rows && r.guid == k;
      assert r in t.rows || r.guid == g;
    }
  }

  lemma ForkEvolves(t: Table, cfg: Config, ev: Event, read: ReadResult)
    requires Core(t, cfg) && ev.Self() !in Keys(t.rows) && ev.Self() != ev.HeaderParent()
    ensures Evolves(t, RecordFork(t, cfg, ev, read).table, cfg,
                    {NewRow(ev)} + ProcNews(cfg, ev.HeaderParent(), ev.parent.pid, ev.parent.start, read), 1)
  {
    var h := ev.HeaderParent();
    var up := Resolve(t, cfg, h, ev.parent.pid, ev.parent.start, read);
    var row := RecordFork(t, cfg, ev, read).row.value;
    var news := ProcNews(cfg, h, ev.parent.pid, ev.parent.start, read);
    ResolveEvolves(t, cfg, h, ev.parent.pid, ev.parent.start, read);
    ResolveKeys(t, cfg, h, ev.parent.pid, ev.parent.start, read);
    InsertEvolves(up.table, cfg, row);
    var t' := Insert(up.table, row, cfg.maxEntries);
    EvolvesSame(up.table, t', cfg, row, NewRow(ev), 1);
    EvolvesTrans(t, up.table, t', cfg, news, {NewRow(ev)}, 0, 1);
    assert news + {NewRow(ev)} == {NewRow(ev)} + news;
  }

  /** Only the lineage of a new row matters. */
  lemma EvolvesSame(t: Table, u: Table, cfg: Config, a: Row, b: Row, m: int)
    requires Evolves(t, u, cfg, {a}, m) && SameLineage(a, b)
    ensures Evolves(t, u, cfg, {b}, m)
  {
    forall r | r in u.rows && !HasLineage(t.rows, r) ensures exists n :: n in {b} && SameLineage(n, r) {
      assert SameLineage(a, r);
      assert b in {b} && SameLineage(b, r);
    }
  }

  lemma ExecKnown(t: Table, cfg: Config, ev: Event)
    requires Core(t, cfg) && ev.Self() in Keys(t.rows)
    ensures Evolves(t, RecordExec(Get(t, ev.Self()), cfg, ev).table, cfg, {NewRow(ev)}, 0)
  {
    var got := Get(t, ev.Self());
    var out := RecordExec(got, cfg, ev);
    GetEvolves(t, cfg, ev.Self());
    SetFrontEvolves(got.table, cfg, out.row.value);
    EvolvesTrans(t, got.table, out.table, cfg, {}, {}, 0, 0);
    EvolvesWiden(t, out.table, cfg, {} + {}, {NewRow(ev)}, 0);
  }

  lemma ExecEvolves(t: Table, cfg: Config, ev: Event)
    requires Core(t, cfg) && cfg.maxEntries >= 1
    ensures Evolves(t, RecordExec(Get(t, ev.Self()), cfg, ev).table, cfg, {NewRow(ev)},
                    if ev.Self() in Keys(t.rows) then 0 else 1)
  {
    if ev.Self() in Keys(t.rows) {
      ExecKnown(t, cfg, ev);
    } else {
      var t1 := Insert(t, NewRow(ev), cfg.maxEntries);
      var row := NewRow(ev).(image := ev.process.image, argv := ev.process.argv, external := false);
      InsertEvolves(t, cfg, NewRow(ev));
      SetFrontEvolves(t1, cfg, row);
      EvolvesTrans(t, t1, SetFront(t1, row), cfg, {NewRow(ev)}, {}, 1, 0);
      assert {NewRow(ev)} + {} == {NewRow(ev)};
    }
  }

  lemma ExitEvolves(t: Table, cfg: Config, ev: Event, now: int)
    requires Core(t, cfg)
    ensures Evolves(t, RecordExit(Get(t, ev.Self()), now).table, cfg, {}, 0)
  {
    var got := Get(t, ev.Self());
    GetEvolves(t, cfg, ev.Self());
    EvolvesRefl(t, cfg);
    if got.row.Some? && got.row.value.exitedAt.None? {
      var row := got.row.value.(exitedAt := Some(now));
      SetFrontEvolves(got.table, cfg, row);
      EvolvesTrans(t, got.table, SetFront(got.table, row), cfg, {}, {}, 0, 0);
    }
  }

  lemma RecordEvolves(t: Table, cfg: Config, ev: Event, read: ReadResult, now: int)
    requires Core(t, cfg) && cfg.maxEntries >= 1
    requires ev.kind.KindFork? ==> ev.Self() != ev.HeaderParent()
    ensures Evolves(t, Record(t, cfg, ev, read, now).table, cfg,
                    {NewRow(ev)} + ProcNews(cfg, ev.HeaderParent(), ev.parent.pid, ev.parent.start, read),
                    Mints(t, ev))
  {
    var news := {NewRow(ev)} + ProcNews(cfg, ev.HeaderParent(), ev.parent.pid, ev.parent.start, read);
    var t' := Record(t, cfg, ev, read, now).table;
    match ev.kind
    case KindFork =>
      if ev.Self() in Keys(t.rows) {
        GetEvolves(t, cfg, ev.Self());
        EvolvesWiden(t, t', cfg, {}, news, 0);
      } else {
        ForkEvolves(t, cfg, ev, read);
      }
    case KindExec =>
      ExecEvolves(t, cfg, ev);
      EvolvesWiden(t, t', cfg, {NewRow(ev)}, news, Mints(t, ev));
    case KindExit =>
      ExitEvolves(t, cfg, ev, now);
      EvolvesWiden(t, t', cfg, {}, news, 0);
  }

  lemma GetFinds(t: Table, g: Guid)
    ensures var u := Get(t, g);
            u.row.Some? ==> Find(u.table.rows, g) == u.row
  {
  }

  lemma ReportEvolves(t: Table, cfg: Config, ev: Event, e: Option<Row>, read: ReadResult)
    requires Core(t, cfg)
    ensures Evolves(t, Report(t, cfg, ev, e, read).table, cfg,
                    ProcNews(cfg, ev.HeaderParent(), ev.parent.pid, ev.parent.start, read), 0)
  {
    var orig := ReportedParent(t, ev, e);
    var h := ev.HeaderParent();
    var news := ProcNews(cfg, h, ev.parent.pid, ev.parent.start, read);
    var t' := Report(t, cfg, ev, e, read).table;
    EvolvesRefl(t, cfg);
    if orig.row.Some? {
      var g := orig.row.value.guid;
      GetEvolves(t, cfg, g);
      GetFinds(t, g);
      GetEvolves(orig.table, cfg, g);
      EvolvesTrans(t, orig.table, t', cfg, {}, {}, 0, 0);
      EvolvesWiden(t, t', cfg, {} + {}, news, 0);
    } else {
      ResolveEvolves(t, cfg, h, ev.parent.pid, ev.parent.start, read);
    }
  }

  lemma HandleEvolves(t: Table, cfg: Config, ev: Event, r1: ReadResult, r2: ReadResult, now: int)
    requires Core(t, cfg) && cfg.maxEntries >= 1
    requires ev.kind.KindFork? ==> ev.Self() != ev.HeaderParent()
    ensures Evolves(t, Handle(t, cfg, ev, r1, r2, now).table, cfg, HandleNews(cfg, ev, r1, r2), Mints(t, ev))
  {
    var got := Record(t, cfg, ev, r1, now);
    var h := ev.HeaderParent();
    RecordEvolves(t, cfg, ev, r1, now);
    ReportEvolves(got.table, cfg, ev, got.row, r2);
    EvolvesTrans(t, got.table, Handle(t, cfg, ev, r1, r2, now).table, cfg,
                 {NewRow(ev)} + ProcNews(cfg, h, ev.parent.pid, ev.parent.start, r1),
                 ProcNews(cfg, h, ev.parent.pid, ev.parent.start, r2), Mints(t, ev), 0);
  }

  function SeedNews(procs: seq<ProcInfo>): set<Row> {
    set p | p in procs :: SeedRow(Starts(procs), p)
  }

  lemma {:induction false} SeedEvolves(t: Table, cfg: Config, procs: seq<ProcInfo>, scope: seq<bool>, k: nat)
    requires Core(t, cfg) && k <= |procs| == |scope|
    ensures Evolves(t, SeedTo(t, cfg, procs, scope, k).table, cfg, SeedNews(procs), SeedTo(t, cfg, procs, scope, k).n)
  {
    var news := SeedNews(procs);
    if k == 0 {
      EvolvesRefl(t, cfg);
      EvolvesWiden(t, t, cfg, {}, news, 0);
    } else {
      var before := SeedTo(t, cfg, procs, scope, k - 1);
      var row := SeedRow(Starts(procs), procs[k - 1]);
      SeedEvolves(t, cfg, procs, scope, k - 1);
      if scope[k - 1] && row.guid !in Keys(before.table.rows) {
        InsertEvolves(before.table, cfg, row);
        EvolvesTrans(t, before.table, Insert(before.table, row, cfg.maxEntries), cfg, news, {row}, before.n, 1);
        assert procs[k - 1] in procs;
        assert news + {row} == news;
      }
    }
  }

  // ---------------------------------------------------------------- runs

  function StepNews(cfg: Config, op: Op): set<Row> {
    match op
    case SeedOp(procs, _) => SeedNews(procs)
    case HandleOp(ev, r1, r2, _) => HandleNews(cfg, ev, r1, r2)
    case _ => {}
  }

  /** Entries an operation creates other than by a /proc lookup. */
  function StepMints(t: Table, cfg: Config, op: Op): nat
    requires OpOk(op)
  {
    match op
    case SeedOp(procs, scope) => Seed(t, cfg, procs, scope).n
    case HandleOp(ev, _, _, _) => Mints(t, ev)
    case _ => 0
  }

  lemma StepEvolves(t: Table, cfg: Config, op: Op)
    requires Core(t, cfg) && cfg.maxEntries >= 1 && OpOk(op)
    ensures Evolves(t, Step(t, cfg, op), cfg, StepNews(cfg, op), StepMints(t, cfg, op))
  {
    match op
    case SeedOp(procs, scope) => SeedEvolves(t, cfg, procs, scope, |procs|);
    case HandleOp(ev, r1, r2, now) => HandleEvolves(t, cfg, ev, r1, r2, now);
    case SweepOp(now) => SweepEvolves(t, cfg, now);
    case LookupOp(_) => EvolvesRefl(t, cfg);
  }

  /** Each key is the GUID of its row's own pid and start time. */
  ghost predicate KeysExact(rows: seq<Row>) {
    forall i :: 0 <= i < |rows| ==> rows[i].guid == GuidOf(rows[i].pid, rows[i].start)
  }

  lemma NewsExact(cfg: Config, op: Op, n: Row)
    requires OpOk(op) && n in StepNews(cfg, op)
    ensures n.guid == GuidOf(n.pid, n.start)
  {
  }

  lemma StepKeysExact(t: Table, cfg: Config, op: Op)
    requires Core(t, cfg) && cfg.maxEntries >= 1 && OpOk(op) && KeysExact(t.rows)
    ensures KeysExact(Step(t, cfg, op).rows)
  {
    var t' := Step(t, cfg, op);
    assert Sprung(t, t', StepNews(cfg, op)) by { StepEvolves(t, cfg, op); }
    forall i | 0 <= i < |t'.rows| ensures t'.rows[i].guid == GuidOf(t'.rows[i].pid, t'.rows[i].start) {
      var r := t'.rows[i];
      assert r in t'.rows;
      if !HasLineage(t.rows, r) {
        var n :| n in StepNews(cfg, op) && SameLineage(n, r);
        NewsExact(cfg, op, n);
      }
    }
  }

  /**
   * Structural invariant over every run: unique keys, each the GUID of its row, at most
   * MaxEntries rows, and front-to-back order is exactly order of last use.
   */
  lemma {:induction false} RunInvariant(cfg: Config, ops: seq<Op>)
    requires cfg.maxEntries >= 1 && OpsOk(ops)
    ensures Core(Run(cfg, ops), cfg) && KeysExact(Run(cfg, ops).rows)
  {
    if ops != [] {
      var before := ops[..|ops| - 1];
      RunInvariant(cfg, before);
      StepEvolves(Run(cfg, before), cfg, ops[|ops| - 1]);
      StepKeysExact(Run(cfg, before), cfg, ops[|ops| - 1]);
    }
  }

  /** Whatever is evicted for space was last used before every entry that survives it. */
  lemma EvictionsAreLeastRecent(cfg: Config, ops: seq<Op>, i: nat, k: Guid)
    requires cfg.maxEntries >= 1 && OpsOk(ops) && i < |Run(cfg, ops).log| && Run(cfg, ops).log[i].Evicted?
    requires k in Resident(Run(cfg, ops).log[..i + 1])
    ensures LastTouch(Run(cfg, ops).log[..i], Run(cfg, ops).log[i].guid) < LastTouch(Run(cfg, ops).log[..i], k)
  {
    RunInvariant(cfg, ops);
    var log := Run(cfg, ops).log;
    assert LeastRecent(log[..i], log[i]);
    assert log[..i + 1][..i] == log[..i];
  }

  /** Entries created over a run by Seed, fork and exec. */
  ghost function RunMints(cfg: Config, ops: seq<Op>): nat
    requires OpsOk(ops)
  {
    if ops == [] then 0
    else
      var before := ops[..|ops| - 1];
      RunMints(cfg, before) + StepMints(Run(cfg, before), cfg, ops[|ops| - 1])
  }

  /** Conservation: every entry ever made is resident or was counted out. */
  lemma {:induction false} RunConserves(cfg: Config, ops: seq<Op>)
    requires cfg.maxEntries >= 1 && OpsOk(ops)
    ensures var t := Run(cfg, ops);
            |t.rows| + t.stats.evictedExit + t.stats.evictedLRU == RunMints(cfg, ops) + t.stats.procLookups
  {
    if ops != [] {
      var before := ops[..|ops| - 1];
      RunConserves(cfg, before);
      RunInvariant(cfg, before);
      StepEvolves(Run(cfg, before), cfg, ops[|ops| - 1]);
    }
  }
}
