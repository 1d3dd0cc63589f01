/** Why a cgroup stops being captured: the grace period, over every run of the watcher. */
module Grace {
  import opened Types
  import opened WatcherSpec

  /** No add of the cgroup after position i. */
  ghost predicate NoAddSince(log: seq<Note>, i: int, id: Uint64) {
    forall k :: i < k < |log| && 0 <= k ==> log[k] != Added(id)
  }

  /** Position i is where timer t of cgroup id was armed, early enough for the time at. */
  ghost predicate ArmedAt(log: seq<Note>, i: int, id: Uint64, t: nat, latest: int) {
    0 <= i < |log| && log[i].Armed? && log[i].cgroup == id && log[i].timer == t && log[i].at <= latest
  }

  /** Position i explains the removal at j. */
  ghost predicate Explains(log: seq<Note>, i: int, j: int, grace: int, strict: bool) {
    && 0 <= i < j < |log| && log[j].Removed?
    && ArmedAt(log, i, log[j].cgroup, log[j].timer, log[j].at - grace)
    && (strict ==> NoAddSince(log[..j], i, log[j].cgroup))
  }

  /** The removal at j goes back to a release at least grace earlier; strictly: with no add in between. */
  ghost predicate Caused(log: seq<Note>, j: int, grace: int, strict: bool) {
    exists i :: Explains(log, i, j, grace, strict)
  }

  ghost predicate AllCaused(log: seq<Note>, grace: int, strict: bool) {
    forall j :: 0 <= j < |log| && log[j].Removed? ==> Caused(log, j, grace, strict)
  }

  /** An outstanding timer's arming is in the history; strictly: its cgroup was not added since. */
  ghost predicate Standing(log: seq<Note>, t: nat, tm: Timer, strict: bool) {
    exists i :: ArmedAt(log, i, tm.cgroup, t, tm.armedAt) && (strict ==> NoAddSince(log, i, tm.cgroup))
  }

  ghost predicate AllStanding(s: State, grace: int) {
    forall t :: t in s.live ==>
      && Standing(s.log, t, s.live[t], !s.late)
      && (s.live[t].fired ==> s.live[t].armedAt + grace <= s.now)
  }

  /** While every Stop has beaten its timer, an outstanding timer is its cgroup's pending one. */
  ghost predicate Owned(s: State) {
    !s.late ==> forall t :: t in s.live ==> s.live[t].cgroup in s.timers && s.timers[s.live[t].cgroup] == t
  }

  ghost predicate Graceful(s: State, grace: int) {
    TimersLive(s) && Owned(s) && AllStanding(s, grace) && AllCaused(s.log, grace, !s.late)
  }

  // ------------------------------------------------------ growing the log

  lemma ArmedAppend(log: seq<Note>, m: Note, i: int, id: Uint64, t: nat, latest: int)
    requires ArmedAt(log, i, id, t, latest)
    ensures ArmedAt(log + [m], i, id, t, latest)
  {
  }

  lemma NoAddAppend(log: seq<Note>, m: Note, i: int, id: Uint64)
    requires NoAddSince(log, i, id) && m != Added(id)
    ensures NoAddSince(log + [m], i, id)
  {
  }

  lemma StandingAppend(log: seq<Note>, m: Note, t: nat, tm: Timer, strict: bool)
    requires Standing(log, t, tm, strict) && (strict ==> m != Added(tm.cgroup))
    ensures Standing(log + [m], t, tm, strict)
  {
    var i :| ArmedAt(log, i, tm.cgroup, t, tm.armedAt) && (strict ==> NoAddSince(log, i, tm.cgroup));
    ArmedAppend(log, m, i, tm.cgroup, t, tm.armedAt);
    if strict { NoAddAppend(log, m, i, tm.cgroup); }
  }

  lemma CausedAppend(log: seq<Note>, m: Note, j: int, grace: int, strict: bool)
    requires Caused(log, j, grace, strict)
    ensures Caused(log + [m], j, grace, strict)
  {
    var i :| Explains(log, i, j, grace, strict);
    assert (log + [m])[..j] == log[..j];
    assert Explains(log + [m], i, j, grace, strict);
  }

  lemma AllCausedAppend(log: seq<Note>, m: Note, grace: int, strict: bool)
    requires AllCaused(log, grace, strict) && !m.Removed?
    ensures AllCaused(log + [m], grace, strict)
  {
    forall j | 0 <= j < |log + [m]| && (log + [m])[j].Removed? ensures Caused(log + [m], j, grace, strict) {
      CausedAppend(log, m, j, grace, strict);
    }
  }

  lemma Weaken(log: seq<Note>, grace: int, strict: bool)
    requires AllCaused(log, grace, strict)
    ensures AllCaused(log, grace, false)
  {
    forall j | 0 <= j < |log| && log[j].Removed? ensures Caused(log, j, grace, false) {
      var i :| Explains(log, i, j, grace, strict);
      assert Explains(log, i, j, grace, false);
    }
  }

  // ------------------------------------------------------------ sections

  /** A note that is no removal keeps the history, if no strict timer's cgroup is added. */
  lemma LogGrows(s: State, grace: int, m: Note)
    requires Graceful(s, grace) && !m.Removed?
    requires !s.late && m.Added? ==> forall t :: t in s.live ==> s.live[t].cgroup != m.cgroup
    ensures Graceful(s.(log := s.log + [m]), grace)
  {
    AllCausedAppend(s.log, m, grace, !s.late);
    forall t | t in s.live ensures Standing(s.log + [m], t, s.live[t], !s.late) {
      StandingAppend(s.log, m, t, s.live[t], !s.late);
    }
  }

  lemma StopGraceful(s: State, grace: int, id: Uint64)
    requires Graceful(s, grace)
    ensures var s' := StopTimer(s, id);
            Graceful(s', grace) && (!s'.late ==> forall t :: t in s'.live ==> s'.live[t].cgroup != id)
  {
    var s' := StopTimer(s, id);
    Weaken(s.log, grace, !s.late);
    forall t | t in s'.live ensures Standing(s'.log, t, s'.live[t], !s'.late) {
      assert Standing(s.log, t, s.live[t], !s.late);
    }
  }

  lemma AddGraceful(s: State, grace: int, id: Uint64, c: Container, put: bool)
    requires Graceful(s, grace)
    ensures Graceful(Add(s, id, c, put), grace)
  {
    var s1 := StopTimer(s, id);
    StopGraceful(s, grace, id);
    LogGrows(s1, grace, Added(id));
  }

  lemma ReleaseGraceful(s: State, grace: int, id: Uint64)
    requires Graceful(s, grace)
    ensures Graceful(Release(s, id), grace)
  {
    if id in s.captured && id !in s.timers {
      var s' := Release(s, id);
      var m := Armed(id, s.next, s.now);
      LogGrows(s, grace, m);
      forall t | t in s'.live ensures Standing(s'.log, t, s'.live[t], !s'.late) {
        if t == s.next {
          assert ArmedAt(s'.log, |s.log|, id, t, s.now) && NoAddSince(s'.log, |s.log|, id);
        }
      }
    }
  }

  lemma FireGraceful(s: State, grace: int, t: nat)
    requires Graceful(s, grace) && t in s.live && s.live[t].armedAt + grace <= s.now
    ensures Graceful(Fire(s, t), grace)
  {
    var s' := Fire(s, t);
    forall k | k in s'.live ensures Standing(s'.log, k, s'.live[k], !s'.late) {
      assert Standing(s.log, k, s.live[k], !s.late);
    }
  }

  lemma CallbackGraceful(s: State, grace: int, t: nat, removed: bool)
    requires Graceful(s, grace) && t in s.live && s.live[t].fired
    ensures Graceful(Callback(s, t, removed), grace)
  {
    var s' := Callback(s, t, removed);
    var tm := s.live[t];
    var m := Removed(tm.cgroup, t, s.now);
    var strict := !s.late;
    assert Standing(s.log, t, tm, strict);
    forall j | 0 <= j < |s'.log| && s'.log[j].Removed? ensures Caused(s'.log, j, grace, strict) {
      if j < |s.log| {
        CausedAppend(s.log, m, j, grace, strict);
      } else {
        var i :| ArmedAt(s.log, i, tm.cgroup, t, tm.armedAt) && (strict ==> NoAddSince(s.log, i, tm.cgroup));
        assert s'.log[..j] == s.log;
        assert Explains(s'.log, i, j, grace, strict);
      }
    }
    forall k | k in s'.live ensures Standing(s'.log, k, s'.live[k], strict) {
      StandingAppend(s.log, m, k, s.live[k], strict);
    }
  }

  lemma StepGraceful(s: State, grace: int, x: Section)
    requires Graceful(s, grace) && Enabled(s, grace, x)
    ensures Graceful(Apply(s, grace, x), grace)
  {
    match x
    case AddSection(id, c, put) => AddGraceful(s, grace, id, c, put);
    case ReleaseSection(id) => ReleaseGraceful(s, grace, id);
    case FireTimer(t) => FireGraceful(s, grace, t);
    case RunCallback(t, removed) => CallbackGraceful(s, grace, t, removed);
    case _ =>
  }

  lemma {:induction false} RunGraceful(grace: int, states: seq<State>, sections: seq<Section>, k: nat)
    requires Run(grace, states, sections) && k < |states|
    ensures Graceful(states[k], grace)
  {
    if k > 0 {
      RunGraceful(grace, states, sections, k - 1);
      StepGraceful(states[k - 1], grace, sections[k - 1]);
      assert states[k - 1 + 1] == Apply(states[k - 1], grace, sections[k - 1]);
    }
  }

  /**
   * A cgroup leaves the captured set only in the callback of a timer that was armed by a
   * release of that cgroup at least grace earlier. If every Stop so far beat its timer, no
   * add of it happened in between, and each cgroup has at most one outstanding timer.
   */
  lemma LeavesOnlyByGrace(grace: int, states: seq<State>, sections: seq<Section>, k: nat, id: Uint64)
    requires Run(grace, states, sections) && k < |sections|
    requires id in states[k].captured && id !in states[k + 1].captured
    ensures sections[k].RunCallback?
    ensures var log := states[k + 1].log;
            && log != [] && log[|log| - 1] == Removed(id, sections[k].timer, states[k].now)
            && Caused(log, |log| - 1, grace, !states[k + 1].late)
    ensures !states[k + 1].late ==>
              var live := states[k].live;
              forall t, u :: t in live && u in live && live[t].cgroup == live[u].cgroup ==> t == u
  {
    assert Enabled(states[k], grace, sections[k]) && states[k + 1] == Apply(states[k], grace, sections[k]);
    RunGraceful(grace, states, sections, k);
    RunGraceful(grace, states, sections, k + 1);
  }

  /**
   * Why every Stop must beat its timer: a cgroup that is released, whose timer fires, and that
   * is added again before the callback gets the mutex, is no longer captured in the end.
   */
  lemma LateStopLoses(grace: nat, id: Uint64, c: Container)
    ensures var s1 := Release(Add(INITIAL, id, c, true), id);
            var s2 := Apply(s1, grace, Tick(grace));
            Enabled(s2, grace, FireTimer(0)) &&
            var s3 := Add(Fire(s2, 0), id, c, true);
            Enabled(s3, grace, RunCallback(0, true)) && id in s3.captured && id !in s3.timers && s3.late &&
            id !in Callback(s3, 0, true).captured && id !in Callback(s3, 0, true).kernel
  {
  }
}
