/** A concrete start-up in which a torn /proc read leaves a ghost in the table. */
module TornScan {
  import opened Types
  import opened Events
  import opened TableSpec
  import opened TableEffects
  import opened Startup
  import K = Kernel

  ghost predicate EndsIn(cfg: Config, scope: Uint64 -> bool, ws: seq<World>, steps: seq<Step>, w: World) {
    Startup.Run(cfg, scope, ws, steps) && ws[0].k.stale == {} && ws[|steps|] == w
  }

  /** Some run that begins without unreaped processes leads to this world. */
  ghost predicate Reachable(cfg: Config, scope: Uint64 -> bool, w: World) {
    exists ws, steps :: EndsIn(cfg, scope, ws, steps, w)
  }

  lemma ReachBegin(cfg: Config, scope: Uint64 -> bool, w: World)
    requires K.Begins(w.k, scope) && w.k.stale == {} && w == World(w.k, Listing(0), [], [], EMPTY, {}, {})
    ensures Reachable(cfg, scope, w)
  {
    assert EndsIn(cfg, scope, [w], [], w);
  }

  lemma ReachStep(cfg: Config, scope: Uint64 -> bool, w: World, st: Step, w': World)
    requires Reachable(cfg, scope, w) && Enabled(w, st) && Apply(w, cfg, scope, st) == w'
    ensures Reachable(cfg, scope, w')
  {
    var ws, steps :| EndsIn(cfg, scope, ws, steps, w);
    assert EndsIn(cfg, scope, ws + [w'], steps + [st], w');
  }

  /** An event of pid 5, started at the given tick, in the given cgroup, child of pid 1. */
  function Sample(kind: Kind, tick: Uint32, cgroup: Uint64): Event {
    Event(kind, 0,
          Process(None, 5, 5, 0, 0, cgroup, tick * NS_PER_TICK, [], [], [], false, false, false),
          Parent(None, 1, 0, [], [], false, false), None)
  }

  const FIRST := Guid(5, 1)
  const SECOND := Guid(5, 2)
  const STAT := ProcInfo(5, 1, NS_PER_TICK, [], [], 0)
  const ONLY_SEVEN := (c: Uint64) => c == 7

  /** Pid 5 is out of scope, exits, is reaped, and goes to a captured process. */
  const K0 := K.Kernel(map[5 := K.Proc(FIRST, 3, true)], [], {FIRST}, {}, {}, {})
  const K1 := K0.(procs := map[5 := K.Proc(FIRST, 3, false)])
  const K2 := K0.(procs := map[])
  const K3 := K.Kernel(
    map[5 := K.Proc(SECOND, 7, true)], [Sample(KindFork, 2, 7)], {FIRST, SECOND}, {SECOND}, {SECOND}, {})

  lemma ExitDeed()
    ensures var d := K.Exit(Sample(KindExit, 1, 3)); K.Can(K0, d) && K.Do(K0, ONLY_SEVEN, d) == K1
  {
  }

  lemma ReapDeed()
    ensures K.Can(K1, K.Reap(5)) && K.Do(K1, ONLY_SEVEN, K.Reap(5)) == K2
  {
    assert K1.procs - {5} == map[];
  }

  lemma ForkDeed()
    ensures var d := K.Fork(Sample(KindFork, 2, 7)); K.Can(K2, d) && K.Do(K2, ONLY_SEVEN, d) == K3
  {
    assert Sample(KindFork, 2, 7).Self() == SECOND;
  }

  /** The scan lists and stats pid 5. */
  lemma TornFirst(cfg: Config)
    ensures Reachable(cfg, ONLY_SEVEN, World(K0, Statted(STAT), [5], [], EMPTY, {}, {}))
  {
    var w := World(K0, Listing(0), [], [], EMPTY, {}, {});
    ReachBegin(cfg, ONLY_SEVEN, w);
    var w1 := w.(phase := Listing(6), names := [5]);
    assert [] + [5] == w1.names;
    ReachStep(cfg, ONLY_SEVEN, w, ListPid(5), w1);
    ReachStep(cfg, ONLY_SEVEN, w1, ListEnd([5]), w1.(phase := Reading));
    ReachStep(cfg, ONLY_SEVEN, w1.(phase := Reading), ReadStat(STAT), w1.(phase := Statted(STAT)));
  }

  /** Meanwhile the pid changes hands. */
  lemma TornSwap(cfg: Config, w: World)
    requires w.k == K0 && Reachable(cfg, ONLY_SEVEN, w)
    ensures Reachable(cfg, ONLY_SEVEN, w.(k := K3))
  {
    ExitDeed();
    ReachStep(cfg, ONLY_SEVEN, w, Happen(K.Exit(Sample(KindExit, 1, 3))), w.(k := K1));
    ReapDeed();
    ReachStep(cfg, ONLY_SEVEN, w.(k := K1), Happen(K.Reap(5)), w.(k := K2));
    ForkDeed();
    ReachStep(cfg, ONLY_SEVEN, w.(k := K2), Happen(K.Fork(Sample(KindFork, 2, 7))), w.(k := K3));
  }

  /** The cgroup read accepts the first identity, and seeding makes an entry for it. */
  lemma TornSeed(cfg: Config, w: World)
    requires w.phase == Statted(STAT) && w.names == [5] && w.found == [] && w.table == EMPTY && cfg.maxEntries >= 1
    requires 5 in w.k.procs && w.k.procs[5] == K.Proc(SECOND, 7, true) && FIRST !in w.k.mine
    requires Reachable(cfg, ONLY_SEVEN, w)
    ensures exists w' ::
              && Reachable(cfg, ONLY_SEVEN, w') && w'.phase.Consuming?
              && w'.table.stats.evictedLRU == 0 && !Clean(w', ONLY_SEVEN)
  {
    var w1 := Apply(w, cfg, ONLY_SEVEN, ReadCgroup(7));
    ReachStep(cfg, ONLY_SEVEN, w, ReadCgroup(7), w1);
    var w2 := Apply(w1, cfg, ONLY_SEVEN, SeedTable);
    ReachStep(cfg, ONLY_SEVEN, w1, SeedTable, w2);
    assert w1.found == [STAT.(cgroup := 7)];
    OneSeed(cfg, w1.found, Bits(w1.found, ONLY_SEVEN));
    assert IsOf(w1.found[0], FIRST);
    assert !Genuine(w2.k, w2.found[0]);
  }

  lemma OneSeed(cfg: Config, procs: seq<ProcInfo>, scope: seq<bool>)
    requires |procs| == |scope| == 1 && cfg.maxEntries >= 1
    ensures Seed(EMPTY, cfg, procs, scope).table.stats.evictedLRU == 0
  {
    assert SeedTo(EMPTY, cfg, procs, scope, 0).table == EMPTY;
  }

  /**
   * A start without unreaped processes is not enough: a process out of scope is statted, exits
   * and is reaped, its pid goes to a captured process, and the cgroup read lets the old
   * identity in, with no exit event ever to come.
   */
  lemma TornReadGhost(cfg: Config)
    requires cfg.maxEntries >= 1
    ensures exists w ::
              && Reachable(cfg, ONLY_SEVEN, w) && w.phase.Consuming?
              && w.table.stats.evictedLRU == 0 && !NoGhost(w)
  {
    var w := World(K0, Statted(STAT), [5], [], EMPTY, {}, {});
    TornFirst(cfg);
    TornSwap(cfg, w);
    TornSeed(cfg, w.(k := K3));
    var w' :|
      && Reachable(cfg, ONLY_SEVEN, w') && w'.phase.Consuming?
      && w'.table.stats.evictedLRU == 0 && !Clean(w', ONLY_SEVEN);
    var ws, steps :| EndsIn(cfg, ONLY_SEVEN, ws, steps, w');
    NoGapNoGhost(cfg, ONLY_SEVEN, ws, steps, |steps|);
  }
}
