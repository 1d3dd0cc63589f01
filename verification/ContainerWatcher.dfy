/** The watcher as an object: its fields, the kernel map it drives, and its handlers. */
module ContainerWatcher {
  import opened Types
  import S = WatcherSpec
  import M = WatcherMachine
  import opened Handlers

  /** target_cgroups behind AddCgroup and RemoveCgroup; works is the rest of the kernel's answer. */
  class TargetCgroups {
    var ids: set<Uint64>

    constructor ()
      ensures ids == {}
    {
      ids := {};
    }

    method AddCgroup(id: Uint64, works: bool) returns (ok: bool)
      modifies this
      ensures ok <==> works && (id in old(ids) || |old(ids)| < 64)
      ensures ids == if ok then old(ids) + {id} else old(ids)
    {
      ok := works && (id in ids || |ids| < S.MAX_CGROUPS);
      if ok { ids := ids + {id}; }
    }

    method RemoveCgroup(id: Uint64, works: bool) returns (ok: bool)
      modifies this
      ensures ok == works && ids == if ok then old(ids) - {id} else old(ids)
    {
      ok := works;
      if ok { ids := ids - {id}; }
    }
  }

  /** Releasing a list of cgroups one after the other. */
  function ReleaseAll(s: S.State, ids: seq<Uint64>): S.State
    decreases |ids|
  {
    if ids == [] then s else S.Release(ReleaseAll(s, ids[..|ids| - 1]), ids[|ids| - 1])
  }

  /** Afterwards exactly the captured ones among them, and those pending before, are in grace. */
  lemma {:induction false} ReleaseAllMeans(s: S.State, ids: seq<Uint64>)
    ensures var s' := ReleaseAll(s, ids);
            && s'.captured == s.captured && s'.kernel == s.kernel && s'.wanted == s.wanted && s'.now == s.now
            && (forall x :: x in s'.timers <==> x in s.timers || (x in ids && x in s.captured))
            && (forall x :: x in s.timers ==> s'.timers[x] == s.timers[x])
    decreases |ids|
  {
    if ids != [] {
      var init, last := ids[..|ids| - 1], ids[|ids| - 1];
      ReleaseAllMeans(s, init);
      assert ids == init + [last];
    }
  }

  class Watcher {
    var wanted: Option<S.Container>
    var byCgroup: map<Uint64, S.Container>
    var timers: map<Uint64, nat>
    const cgroups: TargetCgroups
    const grace: int
    var live: map<nat, S.Timer>
    var next: nat
    var now: int
    ghost var late: bool
    ghost var failed: bool
    ghost var log: seq<S.Note>

    ghost function State(): S.State
      reads this, cgroups
    {
      S.State(wanted, byCgroup, timers, cgroups.ids, live, next, now, late, failed, log)
    }

    /** The default grace period is 5 s. */
    constructor (configured: int)
      ensures State() == S.INITIAL && fresh(cgroups)
      ensures grace > 0 && (configured > 0 ==> grace == configured) && (configured <= 0 ==> grace == 5_000_000_000)
    {
      grace := if configured <= 0 then 5_000_000_000 else configured;
      wanted, byCgroup, timers, live, next, now := None, map[], map[], map[], 0, 0;
      late, failed, log := false, false, [];
      cgroups := new TargetCgroups();
    }

    method SetWanted(c: S.Container)
      modifies this
      ensures State() == old(State()).(wanted := Some(c))
    {
      wanted := Some(c);
    }

    method Lookup(cgroup: Uint64) returns (c: Option<S.Container>)
      ensures c.Some? <==> cgroup in byCgroup
      ensures c.Some? ==> c.value == byCgroup[cgroup]
    {
      c := if cgroup in byCgroup then Some(byCgroup[cgroup]) else None;
    }

    method StopTimer(cgroup: Uint64)
      modifies this
      ensures State() == S.StopTimer(old(State()), cgroup)
    {
      if cgroup in timers {
        var t := timers[cgroup];
        if t in live && live[t].fired {
          late := true;
        } else {
          live := live - {t};
        }
        timers := timers - {cgroup};
      }
    }

    /** add; works: what AddCgroup answers when there is room. */
    method Add(cgroup: Uint64, c: S.Container, works: bool) returns (ok: bool)
      modifies this, cgroups
      ensures State() == S.Add(old(State()), cgroup, c, works && S.PutPossible(old(State()), cgroup))
      ensures ok <==> cgroup in byCgroup
      ensures byCgroup == if ok then old(byCgroup)[cgroup := c] else old(byCgroup)
      ensures cgroups.ids == if ok && cgroup !in old(byCgroup) then old(cgroups.ids) + {cgroup} else old(cgroups.ids)
      ensures timers == old(timers) - {cgroup}
    {
      StopTimer(cgroup);
      if cgroup in byCgroup {
        byCgroup := byCgroup[cgroup := c];
      } else {
        var put := cgroups.AddCgroup(cgroup, works);
        if !put { return false; }
        byCgroup := byCgroup[cgroup := c];
      }
      log := log + [S.Added(cgroup)];
      ok := true;
    }

    method Release(cgroup: Uint64)
      modifies this
      ensures State() == S.Release(old(State()), cgroup)
    {
      if cgroup !in byCgroup || cgroup in timers { return; }
      log := log + [S.Armed(cgroup, next, now)];
      timers := timers[cgroup := next];
      live := live[next := S.Timer(cgroup, now, false)];
      next := next + 1;
    }

    /** The function handed to AfterFunc by release. */
    method Callback(t: nat, works: bool)
      requires t in live
      modifies this, cgroups
      ensures State() == S.Callback(old(State()), t, works)
    {
      var id := live[t].cgroup;
      log := log + [S.Removed(id, t, now)];
      live := live - {t};
      timers := timers - {id};
      byCgroup := byCgroup - {id};
      var ok := cgroups.RemoveCgroup(id, works);
      if !ok { failed := true; }
    }

    /** The map walk of releaseContainer, in whatever order the map gives. */
    method Collect(id: Text, live: Uint64) returns (ids: seq<Uint64>)
      ensures M.Lists(ids, M.Collected(byCgroup, id, live))
    {
      ids := [];
      var rest := byCgroup.Keys;
      while rest != {}
        invariant rest <= byCgroup.Keys
        invariant M.NoDup(ids)
        invariant forall x :: x in ids <==> x in M.Collected(byCgroup, id, live) && x !in rest
        decreases |rest|
      {
        var cg :| cg in rest;
        if byCgroup[cg].id == id && cg != live {
          ids := ids + [cg];
        }
        rest := rest - {cg};
      }
    }

    /** releaseContainer without another goroutine in between; inode: the stat, 0 if it fails. */
    method ReleaseContainer(id: Text, inode: Uint64) returns (ids: seq<Uint64>)
      modifies this
      ensures State() == ReleaseAll(old(State()), ids)
      ensures Releases(old(State()), State(), id, inode) && wanted == old(wanted)
    {
      ids := Collect(id, inode);
      for i := 0 to |ids|
        invariant State() == ReleaseAll(old(State()), ids[..i])
      {
        assert ids[..i + 1][..i] == ids[..i];
        Release(ids[i]);
      }
      assert ids[..|ids|] == ids;
      ReleaseAllMeans(old(State()), ids);
    }

    /** addRunning: nothing happens if the path or its inode cannot be resolved. */
    method AddRunning(c: S.Container, inode: Option<Uint64>, works: bool) returns (ok: bool)
      modifies this, cgroups
      ensures inode.None? ==> State() == old(State()) && !ok
      ensures inode.Some? ==>
                && State() == S.Add(old(State()), inode.value, c, works && S.PutPossible(old(State()), inode.value))
                && (ok <==> inode.value in byCgroup)
    {
      if inode.None? { return false; }
      ok := Add(inode.value, c, works);
    }

    /**
     * handle, alone. A container renamed away from the target is forgotten, but its cgroup
     * that is live on disk gets no grace timer: it stays captured.
     */
    method Handle(kind: M.EventKind, id: Text, inspect: Option<S.Container>, inode: Option<Uint64>, works: bool)
      modifies this, cgroups
      ensures Handled(old(State()), State(), kind, id, inspect, inode, works)
    {
      var stat := M.InodeOr0(inode);
      if kind.Die? {
        var _ := ReleaseContainer(id, stat);
      } else if kind.Destroy? {
        var _ := ReleaseContainer(id, stat);
        if wanted.Some? && wanted.value.id == id { wanted := None; }
      } else if inspect.Some? {
        var c := inspect.value;
        if c.target {
          SetWanted(c);
          if kind.Start? && c.running {
            var _ := AddRunning(c, inode, works);
          }
        } else if wanted.Some? && wanted.value.id == c.id {
          var _ := ReleaseContainer(c.id, stat);
          wanted := None;
        }
      }
    }

    /** cgroupDirEvent, alone; matched: the directory is the wanted container's. */
    method CgroupDirEvent(created: bool, matched: bool, inode: Option<Uint64>, works: bool)
      modifies this, cgroups
      ensures DirHandled(old(State()), State(), created, matched, inode, works)
    {
      if wanted.None? || !matched { return; }
      if created {
        if inode.Some? {
          var _ := Add(inode.value, wanted.value, works);
        }
      } else {
        var _ := ReleaseContainer(wanted.value.id, M.InodeOr0(inode));
      }
    }
  }
}
