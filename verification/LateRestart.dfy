/** For every grace period, a restart that ends with the new cgroup no longer captured. */
module LateRestart {
  import opened Types
  import opened WatcherSpec
  import opened WatcherMachine
  import opened Restart

  ghost predicate Path(k: Case, grace: int, ws: seq<World>, moves: seq<Move>) {
    |ws| == |moves| + 1 && forall i :: 0 <= i < |moves| ==> Moves(k, grace, ws[i], moves[i], ws[i + 1])
  }

  ghost predicate Joins(k: Case, grace: int, ws: seq<World>, moves: seq<Move>, w: World, w': World) {
    Path(k, grace, ws, moves) && ws[0] == w && ws[|moves|] == w'
  }

  /** Some moves lead from one world to the other. */
  ghost predicate Leads(k: Case, grace: int, w: World, w': World) {
    exists ws, moves :: Joins(k, grace, ws, moves, w, w')
  }

  /** Some restart leads to this world. */
  ghost predicate Reachable(k: Case, grace: int, w: World) {
    exists ws, moves :: Restart.Run(k, grace, ws, moves) && ws[|moves|] == w
  }

  lemma PathMove(k: Case, grace: int, ws: seq<World>, moves: seq<Move>, mv: Move, w': World)
    requires Path(k, grace, ws, moves) && Moves(k, grace, ws[|moves|], mv, w')
    ensures Path(k, grace, ws + [w'], moves + [mv])
  {
    var ws', moves' := ws + [w'], moves + [mv];
    forall i | 0 <= i < |moves'| ensures Moves(k, grace, ws'[i], moves'[i], ws'[i + 1]) {
      if i < |moves| { assert Moves(k, grace, ws[i], moves[i], ws[i + 1]); }
    }
  }

  lemma Stay(k: Case, grace: int, w: World)
    ensures Leads(k, grace, w, w)
  {
    assert Joins(k, grace, [w], [], w, w);
  }

  lemma Then(k: Case, grace: int, w: World, w1: World, mv: Move, w2: World)
    requires Leads(k, grace, w, w1) && Moves(k, grace, w1, mv, w2)
    ensures Leads(k, grace, w, w2)
  {
    var ws, moves :| Joins(k, grace, ws, moves, w, w1);
    PathMove(k, grace, ws, moves, mv, w2);
    assert Joins(k, grace, ws + [w2], moves + [mv], w, w2);
  }

  lemma LeadsReach(k: Case, grace: int, w: World, w': World)
    requires Begins(k, w) && Leads(k, grace, w, w')
    ensures Reachable(k, grace, w')
  {
    var ws, moves :| Joins(k, grace, ws, moves, w, w');
    assert Restart.Run(k, grace, ws, moves);
  }

  /** What an honest environment answers, with the given map order. */
  function Reply(w: World, order: seq<Uint64>): Answer {
    Answer(true, OnDisk(w.disk), order, true)
  }

  // -------------------------------------------------------------- handlers

  /** die is taken and stats the old directory; it does not go on yet. */
  lemma DieStats(k: Case, grace: int, w0: World, w: World)
    requires Leads(k, grace, w0, w) && w.rt == 0 && w.m.rt.RtIdle? && w.disk.OldDir?
    ensures Leads(k, grace, w0, w.(rt := 1, m := w.m.(rt := RtRelease(k.id, Collect(w.disk.inode), Finish))))
  {
    var w1 := w.(rt := 1, m := w.m.(rt := RtRelease(k.id, Stat, Finish)));
    Then(k, grace, w0, w, Do(RtEvent(Die, k.id, None)), w1);
    var w2 := w1.(m := w1.m.(rt := RtRelease(k.id, Collect(w.disk.inode), Finish)));
    Then(k, grace, w0, w1, Do(RtGo(Reply(w1, []))), w2);
  }

  /** The inotify goroutine runs through releaseContainer, from the collecting to the end. */
  lemma InoReleases(k: Case, grace: int, w0: World, w: World, live: Uint64, x: Uint64)
    requires Leads(k, grace, w0, w) && w.m.ino == InoRelease(k.id, Collect(live))
    requires Collected(w.m.core.captured, k.id, live) == {x}
    ensures Leads(k, grace, w0, w.(m := w.m.(ino := InoIdle, core := Release(w.m.core, x))))
  {
    var w1 := w.(m := w.m.(ino := InoRelease(k.id, Each([x]))));
    assert Moves(k, grace, w, Do(InoGo(Reply(w, [x]))), w1) by { assert Lists([x], {x}); }
    Then(k, grace, w0, w, Do(InoGo(Reply(w, [x]))), w1);
    var w2 := w.(m := w.m.(ino := InoRelease(k.id, Each([])), core := Release(w.m.core, x)));
    assert Moves(k, grace, w1, Do(InoGo(Reply(w1, []))), w2) by { assert [x][1..] == []; }
    Then(k, grace, w0, w1, Do(InoGo(Reply(w1, []))), w2);
    Then(k, grace, w0, w2, Do(InoGo(Reply(w2, []))), w2.(m := w2.m.(ino := InoIdle)));
  }

  /** So does the runtime goroutine. */
  lemma RtReleases(k: Case, grace: int, w0: World, w: World, live: Uint64, x: Uint64)
    requires Leads(k, grace, w0, w) && w.m.rt == RtRelease(k.id, Collect(live), Finish)
    requires Collected(w.m.core.captured, k.id, live) == {x}
    ensures Leads(k, grace, w0, w.(m := w.m.(rt := RtIdle, core := Release(w.m.core, x))))
  {
    var w1 := w.(m := w.m.(rt := RtRelease(k.id, Each([x]), Finish)));
    assert Moves(k, grace, w, Do(RtGo(Reply(w, [x]))), w1) by { assert Lists([x], {x}); }
    Then(k, grace, w0, w, Do(RtGo(Reply(w, [x]))), w1);
    var w2 := w.(m := w.m.(rt := RtRelease(k.id, Each([]), Finish), core := Release(w.m.core, x)));
    assert Moves(k, grace, w1, Do(RtGo(Reply(w1, []))), w2) by { assert [x][1..] == []; }
    Then(k, grace, w0, w1, Do(RtGo(Reply(w1, []))), w2);
    Then(k, grace, w0, w2, Do(RtGo(Reply(w2, []))), w2.(m := w2.m.(rt := RtIdle)));
  }

  /** The old directory goes; delete is taken and releases the old cgroup. */
  lemma DeleteRuns(k: Case, grace: int, w0: World, w: World, former: Uint64)
    requires Leads(k, grace, w0, w) && w.ino == 0 && w.m.ino.InoIdle? && w.disk.OldDir?
    requires w.m.core.wanted.Some? && w.m.core.wanted.value.id == k.id
    requires Collected(w.m.core.captured, k.id, 0) == {former}
    ensures Leads(k, grace, w0, w.(ino := 1, disk := NoDir, m := w.m.(core := Release(w.m.core, former))))
  {
    var c := w.m.core.wanted.value;
    var w1 := w.(disk := NoDir);
    Then(k, grace, w0, w, Rmdir, w1);
    var w2 := w1.(ino := 1, m := w.m.(ino := InoNamed(c, false)));
    Then(k, grace, w0, w1, Do(InoEvent(false)), w2);
    var w3 := w2.(m := w.m.(ino := InoRelease(k.id, Stat)));
    Then(k, grace, w0, w2, Do(InoGo(Reply(w2, []))), w3);
    var w4 := w3.(m := w.m.(ino := InoRelease(k.id, Collect(0))));
    Then(k, grace, w0, w3, Do(InoGo(Reply(w3, []))), w4);
    InoReleases(k, grace, w0, w4, 0, former);
  }

  /** The new directory appears; create is taken and adds the new cgroup. */
  lemma CreateRuns(k: Case, grace: int, w0: World, w: World)
    requires Leads(k, grace, w0, w) && w.ino == 1 && w.m.ino.InoIdle? && w.disk.NoDir?
    requires w.m.core.wanted.Some? && PutPossible(w.m.core, k.inode) && !Blocked(w.m.core, k.inode)
    ensures var s := Add(w.m.core, k.inode, w.m.core.wanted.value, true);
            var on := w.(ino := 2, disk := NewDir(k.inode), late := false, holder := w.m.core.wanted);
            Leads(k, grace, w0, on.(m := w.m.(core := s)))
  {
    var c := w.m.core.wanted.value;
    var w1 := w.(disk := NewDir(k.inode));
    Then(k, grace, w0, w, Mkdir, w1);
    var w2 := w1.(ino := 2, m := w.m.(ino := InoNamed(c, true)));
    Then(k, grace, w0, w1, Do(InoEvent(true)), w2);
    var w3 := w2.(m := w.m.(ino := InoAdd(c, k.inode)));
    Then(k, grace, w0, w2, Do(InoGo(Reply(w2, []))), w3);
    Then(k, grace, w0, w3, Do(InoGo(Reply(w3, []))),
              w3.(late := false, holder := Some(c),
                  m := w.m.(ino := InoIdle, core := Add(w.m.core, k.inode, c, true))));
  }

  /** start is taken and matched, up to its add of the new cgroup. */
  lemma StartResolves(k: Case, grace: int, w0: World, w: World, c: Container)
    requires Leads(k, grace, w0, w) && w.rt == 1 && w.m.rt.RtIdle? && w.disk == NewDir(k.inode) && Ours(k, c)
    ensures Leads(k, grace, w0, w.(rt := 2, m := w.m.(rt := RtAdd(c, k.inode), core := w.m.core.(wanted := Some(c)))))
  {
    var w1 := w.(rt := 2, m := w.m.(rt := RtCompare(Start, c)));
    Then(k, grace, w0, w, Do(RtEvent(Start, k.id, Some(c))), w1);
    var w2 := w1.(m := w.m.(rt := RtSet(Start, c)));
    Then(k, grace, w0, w1, Do(RtGo(Reply(w1, []))), w2);
    var s := w.m.core.(wanted := Some(c));
    var w3 := w1.(m := w.m.(rt := RtStat(c), core := s));
    Then(k, grace, w0, w2, Do(RtGo(Reply(w2, []))), w3);
    Then(k, grace, w0, w3, Do(RtGo(Reply(w3, []))), w1.(m := w.m.(rt := RtAdd(c, k.inode), core := s)));
  }

  /** The add comes while a callback is blocked. */
  lemma StartAdds(k: Case, grace: int, w0: World, w: World, c: Container)
    requires Leads(k, grace, w0, w) && w.m.rt == RtAdd(c, k.inode)
    requires PutPossible(w.m.core, k.inode) && Blocked(w.m.core, k.inode)
    ensures var on := w.m.(rt := RtIdle, core := Add(w.m.core, k.inode, c, true));
            Leads(k, grace, w0, w.(late := true, holder := Some(c), m := on))
  {
    Then(k, grace, w0, w, Do(RtGo(Reply(w, []))),
              w.(late := true, holder := Some(c), m := w.m.(rt := RtIdle, core := Add(w.m.core, k.inode, c, true))));
  }

  /** The grace period passes and a timer fires; its callback waits. */
  lemma TimerFires(k: Case, grace: nat, w0: World, w: World, t: nat)
    requires Leads(k, grace, w0, w)
    requires t in w.m.core.live && !w.m.core.live[t].fired && w.m.core.live[t].armedAt == w.m.core.now
    ensures var s := w.m.core.(now := w.m.core.now + grace);
            Leads(k, grace, w0, w.(m := w.m.(core := Fire(s, t))))
  {
    var s := w.m.core.(now := w.m.core.now + grace);
    var w1 := w.(m := w.m.(core := s));
    Then(k, grace, w0, w, Do(Env(Tick(grace))), w1);
    Then(k, grace, w0, w1, Do(Env(FireTimer(t))), w.(m := w.m.(core := Fire(s, t))));
  }

  // ---------------------------------------------------------- the whole run

  /** The container is wanted and runs in its former cgroup. */
  function Before(c: Container, former: Uint64): State {
    State(Some(c), map[former := c], map[], {former}, map[], 0, 0, false, false, [Added(former)])
  }

  /** The former cgroup released, the new one added, and then released by the late die. */
  function DieReleased(k: Case, c: Container, former: Uint64): State {
    Release(Add(Release(Before(c, former), former), k.inode, c, true), k.inode)
  }

  /** Two goroutines, up to the point where the die handler has released the new cgroup. */
  lemma LateDie(k: Case, grace: nat, c: Container, former: Uint64, w: World)
    requires Ours(k, c) && k.inode != 0 && former != 0 && former != k.inode
    requires w == World(Machine(Before(c, former), RtIdle, InoIdle), OldDir(former), 0, 0, false, None)
    ensures var m := Machine(DieReleased(k, c, former), RtIdle, InoIdle);
            Leads(k, grace, w, World(m, NewDir(k.inode), 2, 1, false, Some(c)))
  {
    var s := Before(c, former);
    Stay(k, grace, w);
    DieStats(k, grace, w, w);
    var w1 := w.(rt := 1, m := w.m.(rt := RtRelease(k.id, Collect(former), Finish)));
    assert Collected(s.captured, k.id, 0) == {former};
    DeleteRuns(k, grace, w, w1, former);
    var s1 := Release(s, former);
    var w2 := w1.(ino := 1, disk := NoDir, m := w1.m.(core := s1));
    assert s1.live == map[0 := Timer(former, 0, false)];
    CreateRuns(k, grace, w, w2);
    var s2 := Add(s1, k.inode, c, true);
    var w3 := w2.(ino := 2, disk := NewDir(k.inode), holder := Some(c), m := w2.m.(core := s2));
    assert s2.captured == map[former := c, k.inode := c];
    assert Collected(s2.captured, k.id, former) == {k.inode};
    RtReleases(k, grace, w, w3, former, k.inode);
  }

  lemma DieArmed(k: Case, c: Container, former: Uint64)
    requires former != k.inode
    ensures var s := DieReleased(k, c, former);
            && 1 in s.live && s.live[1] == Timer(k.inode, 0, false) && s.now == 0
            && k.inode in s.kernel && k.inode in s.captured && s.timers == map[former := 0, k.inode := 1]
  {
  }

  /** The timer fires just before start adds the new cgroup again. */
  lemma LateAdd(k: Case, grace: nat, w0: World, w: World, c: Container, t: nat, s: State)
    requires Leads(k, grace, w0, w) && w.rt == 1 && w.m.rt.RtIdle? && w.disk == NewDir(k.inode) && Ours(k, c)
    requires t in w.m.core.live && w.m.core.live[t] == Timer(k.inode, w.m.core.now, false) && k.inode in w.m.core.kernel
    requires s == Fire(w.m.core.(now := w.m.core.now + grace), t).(wanted := Some(c))
    ensures var m := w.m.(core := Add(s, k.inode, c, true));
            Leads(k, grace, w0, w.(rt := 2, late := true, holder := Some(c), m := m))
  {
    TimerFires(k, grace, w0, w, t);
    var fired := Fire(w.m.core.(now := w.m.core.now + grace), t);
    StartResolves(k, grace, w0, w.(m := w.m.(core := fired)), c);
    assert Blocked(s, k.inode) by { assert s.live[t].fired; }
    StartAdds(k, grace, w0, w.(rt := 2, m := w.m.(rt := RtAdd(c, k.inode), core := s)), c);
  }

  /** Then the callback runs. */
  lemma LateCallback(k: Case, grace: nat, w0: World, w: World, t: nat)
    requires Leads(k, grace, w0, w) && t in w.m.core.live && w.m.core.live[t].fired
    ensures Leads(k, grace, w0, w.(m := w.m.(core := Callback(w.m.core, t, true))))
  {
    Then(k, grace, w0, w, Do(Env(RunCallback(t, true))), w.(m := w.m.(core := Callback(w.m.core, t, true))));
  }

  lemma BeforeBegins(k: Case, c: Container, former: Uint64)
    requires Ours(k, c) && k.inode != 0 && former != 0 && former != k.inode
    ensures Begins(k, World(Machine(Before(c, former), RtIdle, InoIdle), OldDir(former), 0, 0, false, None))
  {
  }

  /**
   * For every grace period: the die handler stats the old directory, goes on only after the
   * new cgroup was added, and releases it; its timer fires just before start adds the cgroup
   * again. All four handlers have finished, the add came too late, and the callback has removed
   * the new cgroup.
   */
  lemma LateRestartLoses(k: Case, grace: nat, c: Container, former: Uint64)
    requires Ours(k, c) && k.inode != 0 && former != 0 && former != k.inode
    ensures exists w :: Reachable(k, grace, w) && Settled(w) && w.late && k.inode !in w.m.core.captured
  {
    var w := World(Machine(Before(c, former), RtIdle, InoIdle), OldDir(former), 0, 0, false, None);
    var die := DieReleased(k, c, former);
    var w1 := World(Machine(die, RtIdle, InoIdle), NewDir(k.inode), 2, 1, false, Some(c));
    LateDie(k, grace, c, former, w);
    DieArmed(k, c, former);
    var s := Fire(die.(now := die.now + grace), 1).(wanted := Some(c));
    LateAdd(k, grace, w, w1, c, 1, s);
    var w2 := w1.(rt := 2, late := true, holder := Some(c), m := w1.m.(core := Add(s, k.inode, c, true)));
    LateCallback(k, grace, w, w2, 1);
    BeforeBegins(k, c, former);
    LeadsReach(k, grace, w, w2.(m := w2.m.(core := Callback(w2.m.core, 1, true))));
  }
}
