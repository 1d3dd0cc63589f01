/**
 * The process table as the source keeps it: a map of entry objects plus a recency list,
 * updated in place. Every method is proved to do to the recency sequence what TableSpec says.
 */
module ProcTable {
  import opened Types
  import opened Events
  import S = TableSpec

  /** One process; the fields the source assigns after construction are variables. */
  class Entry {
    const guid: Guid
    const pid: Uint32
    const ppid: Uint32
    const start: Uint64
    const cgroup: Uint64
    var parentGuid: Option<Guid>
    var image: Text
    var argv: seq<Text>
    var external: bool
    var exitedAt: Option<int>

    constructor (row: S.Row)
      ensures Row() == row
    {
      guid, pid, ppid, start, cgroup := row.guid, row.pid, row.ppid, row.start, row.cgroup;
      parentGuid, image, argv := row.parentGuid, row.image, row.argv;
      external, exitedAt := row.external, row.exitedAt;
    }

    function Row(): S.Row
      reads this
    {
      S.Row(guid, parentGuid, pid, ppid, start, image, argv, cgroup, external, exitedAt)
    }
  }

  // ------------------------------------------------------------ the list

  /** list.Remove: take e's element out. */
  function Drop(l: seq<Entry>, e: Entry): (d: seq<Entry>)
    ensures forall x :: x in d ==> x in l
    ensures forall x :: x in l && x != e ==> x in d
  {
    if l == [] then []
    else if l[0] == e then l[1..]
    else
      assert l == [l[0]] + l[1..];
      [l[0]] + Drop(l[1..], e)
  }

  ghost function Rows(l: seq<Entry>): (rows: seq<S.Row>)
    reads l
    ensures |rows| == |l| && forall i :: 0 <= i < |l| ==> rows[i] == l[i].Row()
  {
    seq(|l|, i requires 0 <= i < |l| reads l => l[i].Row())
  }

  /** No key is on the list twice. */
  ghost predicate Keyed(l: seq<Entry>) {
    forall i, j :: 0 <= i < j < |l| ==> l[i].guid != l[j].guid
  }

  /** The list's entries by key. */
  ghost function Index(l: seq<Entry>): map<Guid, Entry> {
    if l == [] then map[] else Index(l[1..])[l[0].guid := l[0]]
  }

  /** The map and the list hold the same entries, each once, under its own key. */
  ghost predicate Tied(m: map<Guid, Entry>, l: seq<Entry>) {
    Keyed(l) && m == Index(l)
  }

  lemma {:induction false} IndexIn(l: seq<Entry>, g: Guid)
    requires g in Index(l)
    ensures Index(l)[g] in l && Index(l)[g].guid == g
  {
    if g != l[0].guid { IndexIn(l[1..], g); }
  }

  lemma {:induction false} IndexAt(l: seq<Entry>, k: nat)
    requires Keyed(l) && k < |l|
    ensures l[k].guid in Index(l) && Index(l)[l[k].guid] == l[k]
  {
    if k > 0 {
      assert l[0].guid != l[k].guid;
      IndexAt(l[1..], k - 1);
    }
  }

  lemma IndexCons(e: Entry, l: seq<Entry>)
    ensures Index([e] + l) == Index(l)[e.guid := e]
  {
    assert ([e] + l)[1..] == l;
  }

  /** The list holds exactly the map's entries, without duplicates, each under its own key. */
  lemma TiedMeans(m: map<Guid, Entry>, l: seq<Entry>)
    requires Tied(m, l)
    ensures forall i :: 0 <= i < |l| ==> l[i].guid in m && m[l[i].guid] == l[i]
    ensures forall g :: g in m ==> m[g] in l && m[g].guid == g
    ensures forall i, j :: 0 <= i < j < |l| ==> l[i] != l[j]
  {
    forall i | 0 <= i < |l| ensures l[i].guid in m && m[l[i].guid] == l[i] { IndexAt(l, i); }
    forall g | g in m ensures m[g] in l && m[g].guid == g { IndexIn(l, g); }
  }

  lemma FirstKeyed(l: seq<Entry>)
    requires Keyed(l) && l != []
    ensures Keyed(l[1..]) && l[0].guid !in Index(l[1..])
  {
    if l[0].guid in Index(l[1..]) { IndexIn(l[1..], l[0].guid); }
  }

  /** So the map's length, which the cap is checked against, is the list's length. */
  lemma {:induction false} TiedSize(m: map<Guid, Entry>, l: seq<Entry>)
    requires Tied(m, l)
    ensures |m| == |l|
  {
    if l != [] {
      FirstKeyed(l);
      TiedSize(Index(l[1..]), l[1..]);
    }
  }

  lemma DropKeys(l: seq<Entry>, e: Entry, x: Entry)
    requires Keyed(l) && l != [] && x in Drop(l[1..], e)
    ensures x.guid != l[0].guid
  {
    var k :| 0 <= k < |l[1..]| && l[1..][k] == x;
    assert l[k + 1] == x;
  }

  lemma {:induction false} DropKeyed(l: seq<Entry>, e: Entry)
    requires Keyed(l)
    ensures Keyed(Drop(l, e))
  {
    if l != [] && l[0] != e {
      var rest := Drop(l[1..], e);
      DropKeyed(l[1..], e);
      forall i, j | 0 <= i < j < |[l[0]] + rest| ensures ([l[0]] + rest)[i].guid != ([l[0]] + rest)[j].guid {
        DropKeys(l, e, rest[j - 1]);
      }
    }
  }

  lemma Remap(m: map<Guid, Entry>, a: Guid, x: Entry, b: Guid)
    requires a != b
    ensures m[a := x] - {b} == (m - {b})[a := x]
  {
  }

  lemma Unmap(m: map<Guid, Entry>, a: Guid, x: Entry)
    requires a !in m
    ensures m[a := x] - {a} == m
  {
  }

  /** Taking an entry off the list is deleting its key. */
  lemma {:induction false} IndexDrop(l: seq<Entry>, k: nat)
    requires Keyed(l) && k < |l|
    ensures Index(Drop(l, l[k])) == Index(l) - {l[k].guid}
  {
    FirstKeyed(l);
    if k == 0 {
      Unmap(Index(l[1..]), l[0].guid, l[0]);
    } else {
      assert l[0].guid != l[k].guid;
      IndexDrop(l[1..], k - 1);
      IndexCons(l[0], Drop(l[1..], l[k]));
      Remap(Index(l[1..]), l[0].guid, l[0], l[k].guid);
    }
  }

  lemma TiedDrop(m: map<Guid, Entry>, l: seq<Entry>, k: nat)
    requires Tied(m, l) && k < |l|
    ensures Tied(m - {l[k].guid}, Drop(l, l[k]))
  {
    DropKeyed(l, l[k]);
    IndexDrop(l, k);
  }

  lemma TiedPush(m: map<Guid, Entry>, l: seq<Entry>, e: Entry)
    requires Tied(m, l) && e.guid !in m
    ensures Tied(m[e.guid := e], [e] + l)
  {
    forall i | 0 <= i < |l| ensures l[i].guid != e.guid { IndexAt(l, i); }
    IndexCons(e, l);
  }

  lemma TiedMove(m: map<Guid, Entry>, l: seq<Entry>, k: nat)
    requires Tied(m, l) && k < |l|
    ensures Tied(m, [l[k]] + Drop(l, l[k]))
  {
    TiedDrop(m, l, k);
    TiedPush(m - {l[k].guid}, Drop(l, l[k]), l[k]);
    IndexAt(l, k);
    Restore(m, l[k]);
  }

  lemma Restore(m: map<Guid, Entry>, e: Entry)
    requires e.guid in m && m[e.guid] == e
    ensures (m - {e.guid})[e.guid := e] == m
  {
  }

  /** Looking a key up in the map finds the row the sequence holds. */
  lemma {:induction false} IndexFind(l: seq<Entry>, g: Guid)
    ensures S.Find(Rows(l), g) == if g in Index(l) then Some(Index(l)[g].Row()) else None
  {
    if l != [] {
      assert Rows(l)[1..] == Rows(l[1..]);
      IndexFind(l[1..], g);
    }
  }

  lemma {:induction false} WithoutNone(rows: seq<S.Row>, g: Guid)
    requires forall i :: 0 <= i < |rows| ==> rows[i].guid != g
    ensures S.Without(rows, g) == rows
  {
    if rows != [] { WithoutNone(rows[1..], g); }
  }

  lemma {:induction false} RowsDrop(l: seq<Entry>, k: nat)
    requires Keyed(l) && k < |l|
    ensures Rows(Drop(l, l[k])) == S.Without(Rows(l), l[k].guid)
  {
    var rest := l[1..];
    assert Rows(l)[1..] == Rows(rest);
    if k == 0 {
      forall i | 0 <= i < |rest| ensures Rows(rest)[i].guid != l[0].guid { assert rest[i] == l[i + 1]; }
      WithoutNone(Rows(rest), l[0].guid);
    } else {
      assert l[0].guid != l[k].guid;
      RowsDrop(rest, k - 1);
      RowsCons(l[0], Drop(rest, l[k]));
    }
  }

  lemma RowsCons(e: Entry, l: seq<Entry>)
    ensures Rows([e] + l) == [e.Row()] + Rows(l)
  {
    assert ([e] + l)[1..] == l;
  }

  /** Moving an entry to the front of the list keeps it tied and is Touch on the rows. */
  lemma MoveMatches(m: map<Guid, Entry>, l: seq<Entry>, g: Guid)
    requires Tied(m, l) && g in m
    ensures var l' := [m[g]] + Drop(l, m[g]);
            && Tied(m, l') && |l'| == |l|
            && Rows(l') == [m[g].Row()] + S.Without(Rows(l), g)
  {
    IndexIn(l, g);
    var k :| 0 <= k < |l| && l[k] == m[g];
    TiedMove(m, l, k);
    TiedSize(m, l);
    TiedSize(m, [l[k]] + Drop(l, l[k]));
    RowsDrop(l, k);
    RowsCons(l[k], Drop(l, l[k]));
  }

  /** get on a tied map and list is Get on the rows. */
  lemma GetMatches(m: map<Guid, Entry>, l: seq<Entry>, stats: S.Stats, log: seq<S.Mark>, g: Guid)
    requires Tied(m, l)
    ensures S.Get(S.Table(Rows(l), stats, log), g) ==
            if g in m then
              S.Got(S.Table(Rows([m[g]] + Drop(l, m[g])), stats, log + [S.Touched(g)]), Some(m[g].Row()))
            else S.Got(S.Table(Rows(l), stats, log), None)
  {
    IndexFind(l, g);
    if g in m { IndexIn(l, g); MoveMatches(m, l, g); }
  }

  lemma {:induction false} DropLast(l: seq<Entry>)
    requires Keyed(l) && l != []
    ensures Drop(l, l[|l| - 1]) == l[..|l| - 1]
  {
    if |l| > 1 {
      assert l[0].guid != l[|l| - 1].guid;
      assert l[1..][|l[1..]| - 1] == l[|l| - 1];
      DropLast(l[1..]);
      assert [l[0]] + l[1..][..|l| - 2] == l[..|l| - 1];
    }
  }

  lemma RowsTake(l: seq<Entry>, k: nat)
    requires k <= |l|
    ensures Rows(l[..k]) == Rows(l)[..k]
  {
  }

  /** With room, inserting just pushes. */
  lemma InsertRoom(t: S.Table, row: S.Row, max: nat)
    requires |t.rows| < max
    ensures S.Insert(t, row, max) == S.Table([row] + t.rows, t.stats, t.log + [S.Touched(row.guid)])
  {
    assert t.log + [S.Touched(row.guid)] + [] == t.log + [S.Touched(row.guid)];
  }

  /** In a full table, inserting pushes one row out at the back. */
  lemma InsertFull(t: S.Table, row: S.Row, max: nat)
    requires |t.rows| == max >= 1
    ensures S.Insert(t, row, max) ==
            S.Table([row] + t.rows[..max - 1], t.stats.(evictedLRU := t.stats.evictedLRU + 1),
                    t.log + [S.Touched(row.guid)] + [S.Evicted(t.rows[max - 1].guid)])
  {
    var all := [row] + t.rows;
    assert all[..max] == [row] + t.rows[..max - 1];
    assert all[max] == t.rows[max - 1];
    assert S.EvictMarks(all[..max], max) == [];
    assert S.EvictMarks(all, max) == [S.Evicted(all[max].guid)] + S.EvictMarks(all[..max], max);
  }

  /** Removing the back entry of a full pushed list. */
  lemma DropBack(m: map<Guid, Entry>, e: Entry, l: seq<Entry>)
    requires Tied(m, [e] + l) && l != []
    ensures var back := l[|l| - 1];
            Drop([e] + l, back) == [e] + l[..|l| - 1] && Tied(m - {back.guid}, [e] + l[..|l| - 1])
  {
    var all := [e] + l;
    TiedDrop(m, all, |l|);
    DropLast(all);
    assert all[..|l|] == [e] + l[..|l| - 1];
  }

  /**
   * What insert does to map, list, counters and history: the entry goes to the front, and a
   * new key in a full table pushes the back entry out.
   */
  ghost predicate Pushes(max: nat, e: Entry, m: map<Guid, Entry>, l: seq<Entry>, stats: S.Stats, log: seq<S.Mark>,
                         m': map<Guid, Entry>, l': seq<Entry>, stats': S.Stats, log': seq<S.Mark>)
  {
    if e.guid !in m && |l| >= max && l != [] then
      var back := l[|l| - 1];
      && m' == m[e.guid := e] - {back.guid}
      && l' == [e] + l[..|l| - 1]
      && stats' == stats.(evictedLRU := stats.evictedLRU + 1)
      && log' == log + [S.Touched(e.guid)] + [S.Evicted(back.guid)]
    else
      && m' == m[e.guid := e] && l' == [e] + l && stats' == stats
      && log' == log + [S.Touched(e.guid)]
  }

  /** One removal of the back entry brings the map down to the cap. */
  ghost predicate OneOver(max: nat, m: map<Guid, Entry>, l: seq<Entry>)
    requires l != []
  {
    var back := l[|l| - 1];
    |m - {back.guid}| == max && Drop(l, back) == l[..|l| - 1]
  }

  /** After a push there is at most one entry too many, and then a back one to remove. */
  lemma PushSizes(max: nat, e: Entry, m: map<Guid, Entry>, l: seq<Entry>)
    requires max >= 1 && Tied(m, l) && |l| <= max
    ensures |m[e.guid := e]| > max <==> e.guid !in m && |l| == max
    ensures |m[e.guid := e]| > max ==> OneOver(max, m[e.guid := e], [e] + l)
  {
    TiedSize(m, l);
    if e.guid !in m {
      TiedPush(m, l, e);
      TiedSize(m[e.guid := e], [e] + l);
      if |l| == max {
        DropBack(m[e.guid := e], e, l);
        TiedSize(m[e.guid := e] - {l[max - 1].guid}, [e] + l[..max - 1]);
        assert ([e] + l)[..max] == [e] + l[..max - 1];
      }
    }
  }

  /** Inserting a new key keeps map and list tied. */
  lemma PushTied(max: nat, e: Entry, m: map<Guid, Entry>, l: seq<Entry>, stats: S.Stats, log: seq<S.Mark>,
                 m': map<Guid, Entry>, l': seq<Entry>, stats': S.Stats, log': seq<S.Mark>)
    requires Pushes(max, e, m, l, stats, log, m', l', stats', log')
    requires max >= 1 && Tied(m, l) && |l| <= max && e.guid !in m
    ensures Tied(m', l') && |l'| <= max
  {
    TiedPush(m, l, e);
    if |l| == max { DropBack(m[e.guid := e], e, l); }
  }

  /** Inserting a new key is Insert on the rows. */
  lemma PushMatches(max: nat, e: Entry, m: map<Guid, Entry>, l: seq<Entry>, stats: S.Stats, log: seq<S.Mark>,
                    m': map<Guid, Entry>, l': seq<Entry>, stats': S.Stats, log': seq<S.Mark>)
    requires Pushes(max, e, m, l, stats, log, m', l', stats', log')
    requires max >= 1 && |l| <= max && e.guid !in m
    ensures S.Table(Rows(l'), stats', log') == S.Insert(S.Table(Rows(l), stats, log), e.Row(), max)
  {
    var t := S.Table(Rows(l), stats, log);
    if |l| == max {
      InsertFull(t, e.Row(), max);
      RowsTake(l, max - 1);
      RowsCons(e, l[..max - 1]);
    } else {
      InsertRoom(t, e.Row(), max);
      RowsCons(e, l);
    }
  }

  ghost function RowOf(e: Entry?): Option<S.Row>
    reads e
  {
    if e == null then None else Some(e.Row())
  }

  lemma FrontIndexed(l: seq<Entry>)
    requires l != []
    ensures l[0].guid in Index(l) && Index(l)[l[0].guid] == l[0]
  {
  }

  /** Resolve of a key that is not there, case by case. */
  lemma ResolveMiss(t: S.Table, cfg: S.Config, g: Guid, pid: Uint32, start: Uint64, read: S.ReadResult)
    requires S.Get(t, g).row.None?
    ensures S.Resolve(t, cfg, g, pid, start, read) ==
            if !cfg.procOn || pid == 0 then S.Got(t, None)
            else if !S.Trusted(cfg, pid, start, read) then
              S.Got(S.Table(t.rows, t.stats.(procMisses := t.stats.procMisses + 1), t.log), None)
            else
              var row := S.ProcRow(g, read.info, read.inScope);
              var counted := t.stats.(procLookups := t.stats.procLookups + 1);
              S.Got(S.Insert(S.Table(t.rows, counted, t.log), row, cfg.maxEntries), Some(row))
  {
  }

  lemma ForkMatches(t: S.Table, cfg: S.Config, ev: Event, read: S.ReadResult,
                    up: S.Table, inherited: Option<S.Row>, row: S.Row)
    requires S.Got(up, inherited) == S.Resolve(t, cfg, ev.HeaderParent(), ev.parent.pid, ev.parent.start, read)
    requires row == if inherited.Some? then S.NewRow(ev).(image := inherited.value.image, argv := inherited.value.argv)
                    else S.NewRow(ev)
    ensures S.RecordFork(t, cfg, ev, read) == S.Got(S.Insert(up, row, cfg.maxEntries), Some(row))
  {
  }

  /** The list without the entries whose keys are gone. */
  ghost function Keep(l: seq<Entry>, gone: set<Guid>): seq<Entry> {
    if l == [] then []
    else if l[0].guid in gone then Keep(l[1..], gone)
    else [l[0]] + Keep(l[1..], gone)
  }

  lemma {:induction false} KeepAll(l: seq<Entry>)
    ensures Keep(l, {}) == l
  {
    if l != [] { KeepAll(l[1..]); }
  }

  lemma {:induction false} KeepIn(l: seq<Entry>, gone: set<Guid>, x: Entry)
    ensures x in Keep(l, gone) <==> x in l && x.guid !in gone
  {
    if l != [] {
      KeepIn(l[1..], gone, x);
      assert l == [l[0]] + l[1..];
    }
  }

  lemma {:induction false} KeepSkip(l: seq<Entry>, gone: set<Guid>, g: Guid)
    requires forall i :: 0 <= i < |l| ==> l[i].guid != g
    ensures Keep(l, gone + {g}) == Keep(l, gone)
  {
    if l != [] { KeepSkip(l[1..], gone, g); }
  }

  /** Removing one more entry is one more key gone. */
  lemma {:induction false} KeepDrop(l: seq<Entry>, gone: set<Guid>, k: nat)
    requires Keyed(l) && k < |l| && l[k].guid !in gone
    ensures Drop(Keep(l, gone), l[k]) == Keep(l, gone + {l[k].guid})
  {
    if k == 0 {
      forall i | 0 <= i < |l[1..]| ensures l[1..][i].guid != l[0].guid { assert l[1..][i] == l[i + 1]; }
      KeepSkip(l[1..], gone, l[0].guid);
    } else {
      assert l[0].guid != l[k].guid;
      KeepDrop(l[1..], gone, k - 1);
    }
  }

  /** One visit of the sweep: removing the visited entry keeps the loop's invariant. */
  lemma SweepStep(m: map<Guid, Entry>, l0: seq<Entry>, gone: set<Guid>, g: Guid)
    requires Keyed(l0) && Tied(m, Keep(l0, gone)) && g in m && g !in gone
    ensures var e := m[g];
            && e in l0 && e.guid == g
            && Drop(Keep(l0, gone), e) == Keep(l0, gone + {g})
            && Tied(m - {g}, Keep(l0, gone + {g}))
            && |Keep(l0, gone + {g})| == |Keep(l0, gone)| - 1
  {
    var l := Keep(l0, gone);
    IndexIn(l, g);
    KeepIn(l0, gone, m[g]);
    var k :| 0 <= k < |l0| && l0[k] == m[g];
    KeepDrop(l0, gone, k);
    var j :| 0 <= j < |l| && l[j] == m[g];
    TiedDrop(m, l, j);
    TiedSize(m, l);
    TiedSize(m - {g}, Drop(l, m[g]));
  }

  /** What has been visited and is expired is gone, and nothing else is. */
  ghost predicate Judged(l: seq<Entry>, todo: set<Guid>, gone: set<Guid>, cutoff: int)
    reads l
  {
    forall i :: 0 <= i < |l| ==>
      && (l[i].guid in gone ==> S.Expired(l[i].Row(), cutoff))
      && (l[i].guid !in todo && S.Expired(l[i].Row(), cutoff) ==> l[i].guid in gone)
  }

  lemma JudgeStart(m: map<Guid, Entry>, l: seq<Entry>, cutoff: int)
    requires Tied(m, l)
    ensures Judged(l, m.Keys, {}, cutoff)
  {
    forall i | 0 <= i < |l| ensures l[i].guid in m { IndexAt(l, i); }
  }

  lemma JudgeStep(l: seq<Entry>, todo: set<Guid>, gone: set<Guid>, cutoff: int, e: Entry)
    requires Keyed(l) && e in l && Judged(l, todo + {e.guid}, gone, cutoff)
    ensures Judged(l, todo, if S.Expired(e.Row(), cutoff) then gone + {e.guid} else gone, cutoff)
  {
    forall i | 0 <= i < |l| && l[i].guid == e.guid ensures l[i] == e {
      var k :| 0 <= k < |l| && l[k] == e;
    }
  }

  /** Keeping what is not expired is the order-preserving filter. */
  lemma {:induction false} KeepMatches(l: seq<Entry>, gone: set<Guid>, cutoff: int)
    requires forall i :: 0 <= i < |l| ==> (l[i].guid in gone <==> S.Expired(l[i].Row(), cutoff))
    ensures Rows(Keep(l, gone)) == S.Fresh(Rows(l), cutoff)
  {
    if l != [] {
      assert Rows(l)[1..] == Rows(l[1..]);
      KeepMatches(l[1..], gone, cutoff);
      RowsCons(l[0], Keep(l[1..], gone));
    }
  }

  lemma SweepMatches(t: S.Table, cfg: S.Config, now: int, l: seq<Entry>, gone: set<Guid>, n: nat)
    requires t.rows == Rows(l) && Judged(l, {}, gone, now - cfg.exitTTL) && |Keep(l, gone)| + n == |l|
    ensures S.Sweep(t, cfg, now) ==
            S.Counted(S.Table(Rows(Keep(l, gone)), t.stats.(evictedExit := t.stats.evictedExit + n),
                              t.log + [S.Swept(S.ExpiredKeys(t.rows, now - cfg.exitTTL))]), n)
  {
    KeepMatches(l, gone, now - cfg.exitTTL);
  }

  /** A key was inserted twice: two entries with one GUID are on the list. */
  ghost predicate Twice(l: seq<Entry>) {
    exists i, j :: 0 <= i < |l| && 0 <= j < |l| && l[i] != l[j] && l[i].guid == l[j].guid
  }

  lemma TwiceNotTied(m: map<Guid, Entry>, l: seq<Entry>)
    requires Twice(l)
    ensures !Tied(m, l)
  {
    var i, j :| 0 <= i < |l| && 0 <= j < |l| && l[i] != l[j] && l[i].guid == l[j].guid;
    if i < j { assert !(l[i].guid != l[j].guid); } else { assert !(l[j].guid != l[i].guid); }
  }

  /** Moving an entry to the front does not cure a double insert. */
  lemma TwiceMove(l: seq<Entry>, e: Entry)
    requires Twice(l)
    ensures Twice([e] + Drop(l, e))
  {
    var i, j :| 0 <= i < |l| && 0 <= j < |l| && l[i] != l[j] && l[i].guid == l[j].guid;
    assert l[i] in [e] + Drop(l, e) && l[j] in [e] + Drop(l, e);
    TwiceIn([e] + Drop(l, e), l[i], l[j]);
  }

  lemma TwiceIn(l: seq<Entry>, a: Entry, b: Entry)
    requires a in l && b in l && a != b && a.guid == b.guid
    ensures Twice(l)
  {
    var i :| 0 <= i < |l| && l[i] == a;
    var j :| 0 <= j < |l| && l[j] == b;
  }

  class Table {
    const cfg: S.Config
    var entries: map<Guid, Entry>
    var lru: seq<Entry>
    var stats: S.Stats
    ghost var log: seq<S.Mark>

    /** Structural invariant between calls. */
    ghost predicate Valid()
      reads this
    {
      cfg.maxEntries >= 1 && Tied(entries, lru) && |lru| <= cfg.maxEntries
    }

    ghost function Model(): S.Table
      reads this, lru
    {
      S.Table(Rows(lru), stats, log)
    }

    constructor (maxEntries: int, exitTTL: int, procOn: bool)
      ensures Valid() && Model() == S.EMPTY
      ensures cfg == S.Configure(maxEntries, exitTTL, procOn)
    {
      cfg := S.Configure(maxEntries, exitTTL, procOn);
      entries, lru, stats, log := map[], [], S.Stats(0, 0, 0, 0, 0), [];
    }

    /** get: look up and move to the front. */
    method Get(g: Guid) returns (e: Entry?)
      requires g in entries ==> entries[g] in lru
      modifies this`lru, this`log
      ensures if g in entries then
                && e == entries[g]
                && lru == [entries[g]] + Drop(old(lru), entries[g])
                && log == old(log) + [S.Touched(g)]
              else e == null && lru == old(lru) && log == old(log)
    {
      if g !in entries {
        return null;
      }
      var x := entries[g];
      lru := [x] + Drop(lru, x);
      log := log + [S.Touched(g)];
      return x;
    }

    /** remove: take the entry off the list and delete its key. */
    method Remove(g: Guid, e: Entry)
      modifies this`lru, this`entries
      ensures lru == Drop(old(lru), e) && entries == old(entries) - {g}
    {
      lru := Drop(lru, e);
      entries := entries - {g};
    }

    /** The eviction loop of insert, on a list with at most one entry too many. */
    method Trim()
      requires |entries| > cfg.maxEntries ==> lru != [] && OneOver(cfg.maxEntries, entries, lru)
      modifies this`lru, this`entries, this`stats, this`log
      ensures if |old(entries)| <= cfg.maxEntries then
                entries == old(entries) && lru == old(lru) && stats == old(stats) && log == old(log)
              else
                var back := old(lru)[|old(lru)| - 1];
                && entries == old(entries) - {back.guid} && lru == old(lru)[..|old(lru)| - 1]
                && stats == old(stats).(evictedLRU := old(stats).evictedLRU + 1)
                && log == old(log) + [S.Evicted(back.guid)]
    {
      ghost var n := 0;
      while |entries| > cfg.maxEntries
        invariant n == 0 ==> entries == old(entries) && lru == old(lru) && stats == old(stats) && log == old(log)
        invariant n > 0 ==> n == 1 && |old(entries)| > cfg.maxEntries && |entries| <= cfg.maxEntries && old(lru) != []
        invariant n > 0 ==> entries == old(entries) - {old(lru)[|old(lru)| - 1].guid}
        invariant n > 0 ==> lru == old(lru)[..|old(lru)| - 1]
        invariant n > 0 ==> stats == old(stats).(evictedLRU := old(stats).evictedLRU + 1)
        invariant n > 0 ==> log == old(log) + [S.Evicted(old(lru)[|old(lru)| - 1].guid)]
        decreases |entries|
      {
        var back := lru[|lru| - 1];
        Remove(back.guid, back);
        stats := stats.(evictedLRU := stats.evictedLRU + 1);
        log := log + [S.Evicted(back.guid)];
        n := n + 1;
      }
    }

    /** insert, step by step: what happens to map, list, counters and history. */
    method Push(e: Entry)
      requires Valid() && e !in lru
      modifies this`lru, this`entries, this`stats, this`log
      ensures Pushes(cfg.maxEntries, e, old(entries), old(lru), old(stats), old(log), entries, lru, stats, log)
    {
      PushSizes(cfg.maxEntries, e, entries, lru);
      lru := [e] + lru;
      entries := entries[e.guid := e];
      log := log + [S.Touched(e.guid)];
      Trim();
      assert old(lru) != [] ==> ([e] + old(lru))[..|old(lru)|] == [e] + old(lru)[..|old(lru)| - 1];
    }

    /**
     * insert: push to the front, then evict from the back while the map is over the cap.
     * A key that is already there is put on the list a second time.
     */
    method Insert(e: Entry)
      requires Valid() && e !in lru
      modifies this`lru, this`entries, this`stats, this`log
      ensures old(e.guid !in entries) ==> Valid() && Model() == S.Insert(old(Model()), e.Row(), cfg.maxEntries)
      ensures old(e.guid in entries) ==> lru == [e] + old(lru)
      ensures lru != [] && lru[0] == e && e.guid in entries && entries[e.guid] == e
      ensures entries.Keys <= old(entries).Keys + {e.guid}
      ensures forall x :: x in lru ==> x == e || x in old(lru)
    {
      Push(e);
      if e.guid !in old(entries) {
        PushTied(cfg.maxEntries, e, old(entries), old(lru), old(stats), old(log), entries, lru, stats, log);
        PushMatches(cfg.maxEntries, e, old(entries), old(lru), old(stats), old(log), entries, lru, stats, log);
        FrontIndexed(lru);
      }
    }

    /** insert of a new entry holding row. */
    method Add(row: S.Row) returns (e: Entry)
      requires Valid()
      modifies this`lru, this`entries, this`stats, this`log
      ensures old(row.guid !in entries) ==> Valid() && Model() == S.Insert(old(Model()), row, cfg.maxEntries)
      ensures old(row.guid in entries) ==> lru == [e] + old(lru)
      ensures entries.Keys <= old(entries).Keys + {row.guid}
      ensures fresh(e) && e.Row() == row && lru != [] && lru[0] == e && row.guid in entries && entries[row.guid] == e
      ensures forall x :: x in lru ==> x == e || x in old(lru)
    {
      e := new Entry(row);
      assert Rows(lru) == old(Rows(lru));
      Insert(e);
    }

    /** The /proc half of parent: for a key that is not there, trust /proc only if the start tick matches. */
    method FromProc(g: Guid, pid: Uint32, start: Uint64, read: S.ReadResult) returns (p: Entry?)
      requires Valid() && g !in entries && S.Get(Model(), g).row.None?
      modifies this`lru, this`entries, this`stats, this`log
      ensures Valid() && S.Got(Model(), RowOf(p)) == S.Resolve(old(Model()), cfg, g, pid, start, read)
      ensures p != null <==> S.Trusted(cfg, pid, start, read)
      ensures entries.Keys <= old(entries).Keys + {g}
      ensures p == null ==> g !in entries
      ensures p != null ==> g in entries && entries[g] == p && lru != [] && lru[0] == p && fresh(p)
      ensures forall x :: x in lru ==> x in old(lru) || fresh(x)
    {
      ghost var t := Model();
      ResolveMiss(t, cfg, g, pid, start, read);
      if !cfg.procOn || pid == 0 {
        return null;
      }
      if !S.Trusted(cfg, pid, start, read) {
        stats := stats.(procMisses := stats.procMisses + 1);
        assert Rows(lru) == t.rows;
        return null;
      }
      stats := stats.(procLookups := stats.procLookups + 1);
      assert Rows(lru) == t.rows;
      p := Add(S.ProcRow(g, read.info, read.inScope));
    }

    /** parent: the entry for a parent, resolved from /proc if unknown. */
    method Parent(g: Guid, pid: Uint32, start: Uint64, read: S.ReadResult) returns (p: Entry?)
      requires Valid() || (g in entries && entries[g] in lru)
      modifies this`lru, this`entries, this`stats, this`log
      ensures old(Valid()) ==> Valid() && S.Got(Model(), RowOf(p)) == S.Resolve(old(Model()), cfg, g, pid, start, read)
      ensures old(g in entries) ==>
                entries == old(entries) && p == entries[g] && lru == [entries[g]] + Drop(old(lru), entries[g])
      ensures p == null ==> g !in entries
      ensures p != null ==> g in entries && entries[g] == p && lru != [] && lru[0] == p
      ensures p != null ==> p in old(lru) || fresh(p)
      ensures p != null <==> old(g in entries) || S.Trusted(cfg, pid, start, read)
      ensures entries.Keys <= old(entries).Keys + {g}
      ensures forall x :: x in lru ==> x in old(lru) || fresh(x)
    {
      ghost var t := Model();
      if Valid() && g in entries { IndexIn(lru, g); }
      p := Get(g);
      assert Rows(old(lru)) == t.rows;
      if Tied(entries, old(lru)) {
        GetMatches(entries, old(lru), old(stats), old(log), g);
        if g in entries { MoveMatches(entries, old(lru), g); }
      }
      if p == null {
        p := FromProc(g, pid, start, read);
      }
    }

    /** A fork that names itself as parent, is not resident, and is confirmed by /proc. */
    predicate SelfFork(ev: Event, read: S.ReadResult)
      reads this
    {
      && ev.kind.KindFork? && ev.Self() == ev.HeaderParent() && ev.Self() !in entries
      && S.Trusted(cfg, ev.parent.pid, ev.parent.start, read)
    }

    /** The fork branch for a process that is not resident. */
    method NewFork(ev: Event, read: S.ReadResult) returns (e: Entry)
      requires Valid() && ev.kind.KindFork? && ev.Self() !in entries
      modifies this`lru, this`entries, this`stats, this`log
      ensures !old(SelfFork(ev, read)) ==>
                Valid() && S.Got(Model(), Some(e.Row())) == S.RecordFork(old(Model()), cfg, ev, read)
      ensures old(SelfFork(ev, read)) ==>
                Twice(lru) && ev.HeaderParent() in entries && entries[ev.HeaderParent()] == e && e in lru
      ensures e.parentGuid == Some(ev.HeaderParent()) && fresh(e)
      ensures forall x :: x in lru ==> x in old(lru) || fresh(x)
    {
      ghost var t := Model();
      var p := Parent(ev.HeaderParent(), ev.parent.pid, ev.parent.start, read);
      ghost var up, l := Model(), lru;
      var row := S.NewRow(ev);
      if p != null {
        row := row.(image := p.image, argv := p.argv);
      }
      ForkMatches(t, cfg, ev, read, up, RowOf(p), row);
      e := Add(row);
      if old(SelfFork(ev, read)) {
        assert p == l[0] && lru == [e] + l;
        TwiceIn(lru, e, p);
      }
    }

    /** get, in terms of the recency sequence. */
    method Use(g: Guid) returns (e: Entry?)
      requires Valid()
      modifies this`lru, this`log
      ensures Valid() && S.Got(Model(), RowOf(e)) == S.Get(old(Model()), g)
      ensures e == null <==> g !in entries
      ensures e != null ==> lru != [] && lru[0] == e && e.guid == g && e in old(lru)
      ensures forall x :: x in lru ==> x in old(lru)
    {
      ghost var t := Model();
      if g in entries { IndexIn(lru, g); }
      e := Get(g);
      assert Rows(old(lru)) == t.rows;
      GetMatches(entries, old(lru), stats, old(log), g);
      if g in entries { MoveMatches(entries, old(lru), g); }
    }

    /** Assigning fields of the entry just used. */
    method Assign(e: Entry, image: Text, argv: seq<Text>, external: bool, exitedAt: Option<int>)
      requires Valid() && lru != [] && lru[0] == e
      modifies e
      ensures e.Row() == old(e.Row()).(image := image, argv := argv, external := external, exitedAt := exitedAt)
      ensures Model() == S.SetFront(old(Model()), e.Row())
    {
      e.image, e.argv, e.external, e.exitedAt := image, argv, external, exitedAt;
      forall i | 0 < i < |lru| ensures lru[i] != e { assert lru[0].guid != lru[i].guid; }
      assert Rows(lru) == [e.Row()] + old(Rows(lru))[1..];
    }

    /** The exec branch: create the entry if needed, then replace image and argv. */
    method RecordExec(ev: Event, found: Entry?) returns (e: Entry)
      requires Valid()
      requires found == null ==> ev.Self() !in entries
      requires found != null ==> lru != [] && lru[0] == found
      modifies this`lru, this`entries, this`stats, this`log, found
      ensures Valid() && S.Got(Model(), Some(e.Row())) == S.RecordExec(S.Got(old(Model()), old(RowOf(found))), cfg, ev)
      ensures forall x :: x in lru ==> x in old(lru) || fresh(x)
    {
      if found == null {
        e := Add(S.NewRow(ev));
      } else {
        e := found;
      }
      Assign(e, ev.process.image, ev.process.argv, false, e.exitedAt);
    }

    /** The exit branch: stamp the first exit, count the exit of a process never seen. */
    method RecordExit(found: Entry?, now: int)
      requires Valid() && (found != null ==> lru != [] && lru[0] == found)
      modifies this`stats, found
      ensures Valid() && S.Got(Model(), RowOf(found)) == S.RecordExit(S.Got(old(Model()), old(RowOf(found))), now)
    {
      if found == null {
        stats := stats.(unknownExits := stats.unknownExits + 1);
      } else if found.exitedAt.None? {
        Assign(found, found.image, found.argv, found.external, Some(now));
      }
    }

    /** The first half of Handle: bring the event's process up to date. */
    method Record(ev: Event, read: S.ReadResult, now: int) returns (e: Entry?)
      requires Valid()
      modifies this`lru, this`entries, this`stats, this`log, lru
      ensures !old(SelfFork(ev, read)) ==>
                Valid() && S.Got(Model(), RowOf(e)) == S.Record(old(Model()), cfg, ev, read, now)
      ensures old(SelfFork(ev, read)) ==> Twice(lru) && e != null && NamesFront(e, ev)
      ensures forall x :: x in lru ==> x in old(lru) || fresh(x)
    {
      e := Use(ev.Self());
      match ev.kind
      case KindFork =>
        if e == null {
          e := NewFork(ev, read);
        }
      case KindExec => e := RecordExec(ev, e);
      case KindExit => RecordExit(e, now);
    }

    /** The header's parent is resident and is the parent this entry records. */
    ghost predicate NamesFront(e: Entry, ev: Event)
      reads this, e
    {
      e.parentGuid == Some(ev.HeaderParent()) && ev.HeaderParent() in entries && entries[ev.HeaderParent()] in lru
    }

    /** The second half of Handle: report the fork-time parent while resident, else the header's. */
    method Report(ev: Event, e: Entry?, read: S.ReadResult) returns (out: Event)
      requires Valid() || (Twice(lru) && e != null && NamesFront(e, ev))
      modifies this`lru, this`entries, this`stats, this`log
      ensures old(Valid()) ==>
                Valid() && S.Handled(Model(), out) == S.Report(old(Model()), cfg, ev, old(RowOf(e)), read)
      ensures old(Twice(lru)) ==> Twice(lru)
    {
      if Twice(lru) { TwiceNotTied(entries, lru); }
      out := S.WithProcess(ev, if e == null then None else Some(e.Row()));
      var g, pid, start := ev.HeaderParent(), ev.parent.pid, ev.parent.start;
      if e != null && e.parentGuid.Some? && e.parentGuid.value != g {
        var p := Use(e.parentGuid.value);
        if p != null {
          g, pid, start := p.guid, p.pid, p.start;
        }
      }
      var p := Parent(g, pid, start, read);
      if old(Twice(lru)) { TwiceMove(old(lru), p); }
      out := S.WithParent(out, g, pid, start, if p == null then None else Some(p.Row()));
    }

    /**
     * Handle. The structural invariant survives exactly when the event is not a confirmed
     * self-fork; then state and enriched event are those of TableSpec.Handle.
     */
    method Handle(ev: Event, forkRead: S.ReadResult, parentRead: S.ReadResult, now: int) returns (out: Event)
      requires Valid()
      modifies this`lru, this`entries, this`stats, this`log, lru
      ensures Valid() <==> !old(SelfFork(ev, forkRead))
      ensures Valid() ==> S.Handled(Model(), out) == S.Handle(old(Model()), cfg, ev, forkRead, parentRead, now)
    {
      var e := Record(ev, forkRead, now);
      out := Report(ev, e, parentRead);
      if Twice(lru) { TwiceNotTied(entries, lru); }
    }

    /** Lookup: a copy of the entry, without touching it. */
    method Lookup(g: Guid) returns (r: Option<S.Row>)
      requires Valid()
      ensures r == S.Find(Model().rows, g)
    {
      IndexFind(lru, g);
      r := if g in entries then Some(entries[g].Row()) else None;
    }

    /** Seed: link parents by the scanned start times, add what is in scope and new. */
    method Seed(procs: seq<S.ProcInfo>, scope: seq<bool>) returns (n: nat)
      requires Valid() && |procs| == |scope|
      modifies this`lru, this`entries, this`stats, this`log
      ensures Valid() && S.Counted(Model(), n) == S.Seed(old(Model()), cfg, procs, scope)
    {
      ghost var t := Model();
      var starts: map<Uint32, Uint64> := map[];
      for i := 0 to |procs|
        invariant starts == S.Starts(procs[..i])
      {
        assert procs[..i + 1][..i] == procs[..i];
        starts := starts[procs[i].pid := procs[i].start];
      }
      assert procs[..|procs|] == procs;
      n := 0;
      for i := 0 to |procs|
        invariant Valid() && S.Counted(Model(), n) == S.SeedTo(t, cfg, procs, scope, i)
      {
        var row := S.SeedRow(starts, procs[i]);
        IndexFind(lru, row.guid);
        if scope[i] && row.guid !in entries {
          var e := Add(row);
          n := n + 1;
        }
      }
    }

    /** The sweeping loop: it may visit the keys in any order. */
    method RemoveExpired(cutoff: int) returns (n: nat, ghost gone: set<Guid>)
      requires Valid()
      modifies this`lru, this`entries, this`stats
      ensures Tied(entries, lru) && lru == Keep(old(lru), gone) && |lru| + n == |old(lru)|
      ensures Judged(old(lru), {}, gone, cutoff)
      ensures stats == old(stats).(evictedExit := old(stats).evictedExit + n)
    {
      n, gone := 0, {};
      var todo := entries.Keys;
      ghost var l0 := lru;
      KeepAll(l0);
      JudgeStart(entries, l0, cutoff);
      while todo != {}
        invariant todo <= entries.Keys && todo !! gone
        invariant Tied(entries, lru) && lru == Keep(l0, gone) && |lru| + n == |l0|
        invariant Judged(l0, todo, gone, cutoff)
        invariant stats == old(stats).(evictedExit := old(stats).evictedExit + n)
        decreases todo
      {
        var g :| g in todo;
        SweepStep(entries, l0, gone, g);
        var e := entries[g];
        todo := todo - {g};
        JudgeStep(l0, todo, gone, cutoff, e);
        if S.Expired(e.Row(), cutoff) {
          Remove(g, e);
          stats := stats.(evictedExit := stats.evictedExit + 1);
          n := n + 1;
          gone := gone + {g};
        }
      }
    }

    /** Sweep: whatever order the map is walked in, exactly the expired entries leave. */
    method Sweep(now: int) returns (n: nat)
      requires Valid()
      modifies this`lru, this`entries, this`stats, this`log
      ensures Valid() && S.Counted(Model(), n) == S.Sweep(old(Model()), cfg, now)
    {
      var cutoff := now - cfg.exitTTL;
      ghost var t, gone := Model(), {};
      n, gone := RemoveExpired(cutoff);
      ghost var mark := S.Swept(S.ExpiredKeys(t.rows, cutoff));
      log := log + [mark];
      assert Model() ==
             S.Table(Rows(Keep(old(lru), gone)), t.stats.(evictedExit := t.stats.evictedExit + n), t.log + [mark]);
      assert Rows(old(lru)) == t.rows;
      SweepMatches(t, cfg, now, old(lru), gone, n);
    }
  }
  /** A fork whose header names the child itself as parent breaks a fresh table. */
  method SelfForkBreaks() returns (t: Table)
    ensures !t.Valid()
  {
    t := new Table(10, 1, true);
    var ev := Event(KindFork, 0,
                    Process(None, 5, 5, 0, 0, 7, NS_PER_TICK, [], [], [], false, false, false),
                    Events.Parent(None, 5, NS_PER_TICK, [], [], false, false), None);
    var _ := t.Handle(ev, S.ReadOk(S.ProcInfo(5, 5, NS_PER_TICK, [], [], 7), true), S.ReadFailed, 0);
  }
}
