/**
 * A restart of the wanted container: its cgroup directory is removed and created again with a
 * new inode, inotify reports the delete and then the create, the runtime reports die and then
 * start. The two goroutines interleave freely, stats see whatever is on disk at that moment,
 * and grace timers fire and run at any time.
 */
module Restart {
  import opened Types
  import opened WatcherSpec
  import opened WatcherMachine

  /** The restarted container and the inode of its new cgroup directory. */
  datatype Case = Case(id: Text, inode: Uint64)

  datatype Disk = OldDir(inode: Uint64) | NoDir | NewDir(inode: Uint64)

  /**
   * ino counts the inotify events taken (delete, create), rt the runtime events (die, start).
   * late: at the last add of the new cgroup, a callback for it had fired and was waiting;
   * holder: the container that add was made for.
   */
  datatype World = World(m: Machine, disk: Disk, ino: nat, rt: nat, late: bool, holder: Option<Container>)

  datatype Move = Rmdir | Mkdir | Do(step: Step)

  function OnDisk(d: Disk): Option<Uint64> {
    if d.NoDir? then None else Some(d.inode)
  }

  /** Resolutions and adds succeed: paths match, stats answer from the disk, AddCgroup works. */
  predicate Honest(w: World, a: Answer) {
    a.matched && a.inode == OnDisk(w.disk) && a.put
  }

  /** The restarted container as the runtime describes it. */
  predicate Ours(k: Case, c: Container) {
    c.id == k.id && c.running && c.target
  }

  predicate StepAllowed(k: Case, w: World, st: Step) {
    match st
    case RtEvent(kind, id, inspect) =>
      || (kind == Die && id == k.id && w.rt == 0)
      || (kind == Start && id == k.id && w.rt == 1 && w.disk.NewDir? && inspect.Some? && Ours(k, inspect.value))
    case RtResync(_) => false
    case RtGo(a) => Honest(w, a)
    case InoEvent(created) => if created then w.ino == 1 && w.disk.NewDir? else w.ino == 0 && !w.disk.OldDir?
    case InoGo(a) => Honest(w, a)
    case Env(_) => true
  }

  ghost predicate Allowed(k: Case, grace: int, w: World, mv: Move) {
    match mv
    case Rmdir => w.disk.OldDir?
    case Mkdir => w.disk.NoDir?
    case Do(st) => StepAllowed(k, w, st) && WatcherMachine.Enabled(w.m, grace, st)
  }

  /** Some callback for the cgroup has fired and is still to run. */
  ghost predicate Blocked(s: State, n: Uint64) {
    exists t :: t in s.live && s.live[t].cgroup == n && s.live[t].fired
  }

  ghost function Next(k: Case, grace: int, w: World, mv: Move): World
    requires Allowed(k, grace, w, mv)
  {
    match mv
    case Rmdir => w.(disk := NoDir)
    case Mkdir => w.(disk := NewDir(k.inode))
    case Do(st) =>
      var x := SectionOf(w.m, st);
      World(WatcherMachine.Apply(w.m, grace, st), w.disk,
            if st.InoEvent? then w.ino + 1 else w.ino,
            if st.RtEvent? then w.rt + 1 else w.rt,
            if x.AddSection? && x.cgroup == k.inode then Blocked(w.m.core, k.inode) else w.late,
            if x.AddSection? && x.cgroup == k.inode then Some(x.c) else w.holder)
  }

  /** Before the restart: the container is wanted, both goroutines idle, the new inode unknown. */
  ghost predicate Begins(k: Case, w: World) {
    var s := w.m.core;
    && w.m.rt.RtIdle? && w.m.ino.InoIdle? && w.disk.OldDir? && w.ino == 0 && w.rt == 0 && !w.late && w.holder.None?
    && s.wanted.Some? && s.wanted.value.id == k.id
    && Bounded(s) && TimersLive(s) && 0 !in s.captured
    && k.inode != 0 && Absent(s, k.inode)
  }

  ghost predicate Moves(k: Case, grace: int, w: World, mv: Move, w': World) {
    Allowed(k, grace, w, mv) && w' == Next(k, grace, w, mv)
  }

  ghost predicate Run(k: Case, grace: int, ws: seq<World>, moves: seq<Move>) {
    && |ws| == |moves| + 1 && Begins(k, ws[0])
    && forall i :: 0 <= i < |moves| ==> Moves(k, grace, ws[i], moves[i], ws[i + 1])
  }

  /** All four handlers have finished. */
  predicate Settled(w: World) {
    w.ino == 2 && w.rt == 2 && w.m.ino.InoIdle? && w.m.rt.RtIdle?
  }

  // -------------------------------------------------- the new cgroup alone

  /** No timer of the cgroup is armed or blocked. */
  ghost predicate NoLive(s: State, n: Uint64) {
    forall t :: t in s.live ==> s.live[t].cgroup != n
  }

  ghost predicate Absent(s: State, n: Uint64) {
    n !in s.captured && n !in s.timers && NoLive(s, n)
  }

  /** At most one outstanding timer of the cgroup; while armed it is the pending one. */
  ghost predicate OneLive(s: State, n: Uint64) {
    && (forall t, u :: t in s.live && u in s.live && s.live[t].cgroup == n && s.live[u].cgroup == n ==> t == u)
    && (forall t :: t in s.live && s.live[t].cgroup == n && !s.live[t].fired ==> n in s.timers && s.timers[n] == t)
  }

  /** Where the cgroup stands once added and with nobody left to release it. */
  ghost predicate Landed(s: State, n: Uint64, late: bool) {
    && n !in s.timers
    && (forall t :: t in s.live && s.live[t].cgroup == n ==> s.live[t].fired)
    && (late <==> n !in s.captured || !NoLive(s, n))
    && (!late ==> n in s.kernel)
  }

  // ---------------------------------------------------------- the invariant

  /** A releaseContainer in progress: may still release x. */
  predicate Ahead(rel: Releasing, x: Uint64) {
    rel.Each? ==> x in rel.ids
  }

  ghost predicate RelShape(k: Case, rel: Releasing, live: bool) {
    && (rel.Collect? && live ==> rel.live == 0 || rel.live == k.inode)
    && (rel.Each? ==> NoDup(rel.ids))
  }

  /** The delete handler has not yet passed x. */
  predicate InoAhead(w: World, x: Uint64) {
    || w.ino == 0
    || (w.ino == 1 && (w.m.ino.InoNamed? || (w.m.ino.InoRelease? && Ahead(w.m.ino.rel, x))))
  }

  /** The die handler has not yet passed x. */
  predicate RtAhead(w: World, x: Uint64) {
    w.rt == 0 || (w.rt == 1 && w.m.rt.RtRelease? && Ahead(w.m.rt.rel, x))
  }

  predicate InoDone(w: World) { w.ino == 2 && w.m.ino.InoIdle? }

  predicate RtDone(w: World) { w.rt == 2 && w.m.rt.RtIdle? }

  ghost predicate InoShape(k: Case, w: World) {
    var pc := w.m.ino;
    match w.ino
    case 0 => pc.InoIdle?
    case 1 =>
      && !w.disk.OldDir?
      && (|| pc.InoIdle?
          || (pc.InoNamed? && !pc.created && pc.c.id == k.id)
          || (pc.InoRelease? && pc.id == k.id && RelShape(k, pc.rel, true)))
    case _ =>
      && w.ino == 2 && w.disk.NewDir?
      && (|| pc.InoIdle?
          || (pc.InoNamed? && pc.created && pc.c.id == k.id)
          || (pc.InoAdd? && pc.c.id == k.id && pc.cgroup == k.inode))
  }

  ghost predicate RtShape(k: Case, w: World) {
    var pc := w.m.rt;
    match w.rt
    case 0 => pc.RtIdle?
    case 1 => pc.RtIdle? || (pc.RtRelease? && pc.id == k.id && pc.after == Finish && RelShape(k, pc.rel, false))
    case _ =>
      && w.rt == 2 && w.disk.NewDir?
      && (|| pc.RtIdle?
          || (pc.RtCompare? && pc.kind == Start && Ours(k, pc.c))
          || (pc.RtSet? && pc.kind == Start && Ours(k, pc.c))
          || (pc.RtStat? && Ours(k, pc.c))
          || (pc.RtAdd? && Ours(k, pc.c) && pc.cgroup == k.inode))
  }

  ghost predicate Shape(k: Case, w: World) {
    && k.inode != 0 && SharedShape(k, w.m.core)
    && (w.disk.NewDir? ==> w.disk.inode == k.inode)
    && InoShape(k, w) && RtShape(k, w)
  }

  /** An older cgroup of the container is in grace, unless the delete handler is still to reach it. */
  ghost predicate OldGoing(k: Case, w: World) {
    var s := w.m.core;
    forall x :: x in s.captured && s.captured[x].id == k.id && x != k.inode ==> x in s.timers || InoAhead(w, x)
  }

  /**
   * The new cgroup's share of the invariant, with the program counters reduced to whether
   * each goroutine may still release it and whether it has done its add.
   */
  ghost predicate Coming(s: State, n: Uint64, ahead: bool, done: bool, both: bool, late: bool) {
    && OneLive(s, n)
    && (!done ==> Absent(s, n))
    && (ahead ==> NoLive(s, n))
    && (both ==> Landed(s, n, late))
  }

  ghost predicate NewComing(k: Case, w: World) {
    && TimersLive(w.m.core) && w.m.core.captured.Keys <= w.m.core.kernel
    && Coming(w.m.core, k.inode, InoAhead(w, k.inode) || RtAhead(w, k.inode),
              InoDone(w) || RtDone(w), InoDone(w) && RtDone(w), w.late)
  }

  ghost predicate Inv(k: Case, w: World) {
    Shape(k, w) && OldGoing(k, w) && NewComing(k, w) && Held(k, w)
  }

  /** The new cgroup is captured for the container of its last add, the restarted one. */
  ghost predicate Held(k: Case, w: World) {
    var s := w.m.core;
    k.inode in s.captured ==> w.holder == Some(s.captured[k.inode]) && s.captured[k.inode].id == k.id
  }

  // ----------------------------------------- one critical section, one cgroup

  /** Nothing about cgroup n differs between the two states. */
  ghost predicate SameFor(s: State, s': State, n: Uint64) {
    && (n in s.captured <==> n in s'.captured) && (n in s.kernel <==> n in s'.kernel)
    && (n in s.timers <==> n in s'.timers) && (n in s.timers ==> s.timers[n] == s'.timers[n])
    && (forall t :: t in s.live && s.live[t].cgroup == n ==> t in s'.live && s'.live[t] == s.live[t])
    && (forall t :: t in s'.live && s'.live[t].cgroup == n ==> t in s.live && s'.live[t] == s.live[t])
  }

  lemma SameKeeps(s: State, s': State, n: Uint64)
    requires SameFor(s, s', n)
    ensures OneLive(s, n) ==> OneLive(s', n)
    ensures NoLive(s, n) <==> NoLive(s', n)
    ensures Absent(s, n) ==> Absent(s', n)
    ensures forall late :: Landed(s, n, late) ==> Landed(s', n, late)
  {
  }

  lemma AddNew(s: State, n: Uint64, c: Container)
    requires TimersLive(s) && OneLive(s, n) && s.captured.Keys <= s.kernel
    ensures var s' := Add(s, n, c, true);
            && OneLive(s', n) && Landed(s', n, Blocked(s, n)) && n in s'.captured
            && (NoLive(s, n) ==> NoLive(s', n))
  {
  }

  lemma ReleaseOther(s: State, x: Uint64, n: Uint64)
    requires x != n && TimersLive(s)
    ensures SameFor(s, Release(s, x), n)
  {
  }

  lemma ReleaseNew(s: State, n: Uint64)
    requires TimersLive(s) && NoLive(s, n)
    ensures OneLive(Release(s, n), n)
    ensures n !in s.captured ==> Release(s, n) == s
  {
  }

  lemma FireAny(s: State, t: nat, n: Uint64)
    requires t in s.live && !s.live[t].fired
    ensures s.live[t].cgroup != n ==> SameFor(s, Fire(s, t), n)
    ensures OneLive(s, n) ==> OneLive(Fire(s, t), n)
    ensures NoLive(s, n) <==> NoLive(Fire(s, t), n)
  {
    assert Fire(s, t).live[t].cgroup == s.live[t].cgroup;
    forall u | u in s.live && s.live[u].cgroup == n ensures !NoLive(Fire(s, t), n) {
      assert Fire(s, t).live[u].cgroup == n;
    }
  }

  lemma CallbackAny(s: State, t: nat, removed: bool, n: Uint64)
    requires t in s.live && OneLive(s, n)
    ensures s.live[t].cgroup != n ==> SameFor(s, Callback(s, t, removed), n)
    ensures s.live[t].cgroup == n ==> Absent(Callback(s, t, removed), n)
  {
  }

  // -------------------------------------------------------------- one step

  /** The critical sections of a restart: only the new cgroup is added, wanted stays the container. */
  predicate Fits(k: Case, x: Section) {
    && (x.AddSection? ==> x.cgroup == k.inode && x.c.id == k.id && x.put)
    && (x.SetWanted? ==> x.c.id == k.id)
    && !x.ClearWanted? && !x.ClearWantedIf?
  }

  lemma SectionFits(k: Case, grace: int, w: World, st: Step)
    requires Shape(k, w) && Allowed(k, grace, w, Do(st))
    ensures Fits(k, SectionOf(w.m, st))
  {
  }

  ghost predicate SharedShape(k: Case, s: State) {
    0 !in s.captured && s.wanted.Some? && s.wanted.value.id == k.id
  }

  lemma SharedStep(k: Case, grace: int, s: State, x: Section)
    requires k.inode != 0 && SharedShape(k, s) && Fits(k, x) && WatcherSpec.Enabled(s, grace, x)
    ensures SharedShape(k, WatcherSpec.Apply(s, grace, x))
  {
  }

  lemma InoShapeStep(k: Case, grace: int, w: World, st: Step)
    requires Shape(k, w) && Allowed(k, grace, w, Do(st))
    ensures InoShape(k, Next(k, grace, w, Do(st)))
  {
    if st.InoGo? && w.m.ino.InoRelease? {
      var rel := w.m.ino.rel;
      assert rel.Each? && rel.ids != [] ==> NoDup(rel.ids[1..]);
    }
  }

  lemma RtShapeStep(k: Case, grace: int, w: World, st: Step)
    requires Shape(k, w) && Allowed(k, grace, w, Do(st))
    ensures RtShape(k, Next(k, grace, w, Do(st)))
  {
    if st.RtGo? && w.m.rt.RtRelease? {
      var rel := w.m.rt.rel;
      assert rel.Each? && rel.ids != [] ==> NoDup(rel.ids[1..]);
    }
  }

  lemma ShapeStep(k: Case, grace: int, w: World, st: Step)
    requires Shape(k, w) && Allowed(k, grace, w, Do(st))
    ensures Shape(k, Next(k, grace, w, Do(st)))
  {
    InoShapeStep(k, grace, w, st);
    RtShapeStep(k, grace, w, st);
    SectionFits(k, grace, w, st);
    StepIsSection(w.m, grace, st);
    SharedStep(k, grace, w.m.core, SectionOf(w.m, st));
  }

  /** Critical sections keep an older cgroup in grace until its callback removes it. */
  lemma OldSection(k: Case, grace: int, s: State, x: Section, cg: Uint64)
    requires Fits(k, x) && WatcherSpec.Enabled(s, grace, x) && cg != k.inode
    ensures var s' := WatcherSpec.Apply(s, grace, x);
            && (cg in s'.captured ==> cg in s.captured && s'.captured[cg] == s.captured[cg])
            && (cg in s'.captured && cg in s.timers ==> cg in s'.timers)
            && (cg in s'.captured && x == ReleaseSection(cg) ==> cg in s'.timers)
  {
  }

  /** The delete handler passes an older captured cgroup of the container only by releasing it. */
  lemma InoPasses(k: Case, grace: int, w: World, st: Step, cg: Uint64)
    requires Shape(k, w) && Allowed(k, grace, w, Do(st))
    requires cg in w.m.core.captured && w.m.core.captured[cg].id == k.id && cg != k.inode
    requires InoAhead(w, cg) && !InoAhead(Next(k, grace, w, Do(st)), cg)
    ensures SectionOf(w.m, st) == ReleaseSection(cg)
  {
    assert st.InoGo?;
    assert cg != 0;
    var rel := w.m.ino.rel;
    if rel.Each? {
      assert rel.ids == [rel.ids[0]] + rel.ids[1..];
    }
  }

  lemma OldStep(k: Case, grace: int, w: World, st: Step)
    requires Shape(k, w) && OldGoing(k, w) && Allowed(k, grace, w, Do(st))
    ensures OldGoing(k, Next(k, grace, w, Do(st)))
  {
    var w' := Next(k, grace, w, Do(st));
    var s, s', x := w.m.core, w'.m.core, SectionOf(w.m, st);
    SectionFits(k, grace, w, st);
    StepIsSection(w.m, grace, st);
    forall cg | cg in s'.captured && s'.captured[cg].id == k.id && cg != k.inode
      ensures cg in s'.timers || InoAhead(w', cg)
    {
      OldSection(k, grace, s, x, cg);
      if cg !in s.timers && !InoAhead(w', cg) {
        InoPasses(k, grace, w, st, cg);
      }
    }
  }

  /** How a step moves the two program counters, as far as the new cgroup is concerned. */
  lemma InoPcStep(k: Case, grace: int, w: World, st: Step)
    requires Shape(k, w) && Allowed(k, grace, w, Do(st))
    ensures var w', x := Next(k, grace, w, Do(st)), SectionOf(w.m, st);
            && (InoAhead(w', k.inode) ==> InoAhead(w, k.inode))
            && (InoDone(w') <==> InoDone(w) || (st.InoGo? && x.AddSection?))
            && (st.InoGo? && x == ReleaseSection(k.inode) ==> InoAhead(w, k.inode) && !InoAhead(w', k.inode))
            && (st.InoGo? && x.AddSection? ==> w.ino == 2 && !InoDone(w))
  {
    if st.InoGo? && w.m.ino.InoRelease? && w.m.ino.rel.Each? && w.m.ino.rel.ids != [] {
      var ids := w.m.ino.rel.ids;
      assert ids == [ids[0]] + ids[1..];
    }
  }

  lemma RtPcStep(k: Case, grace: int, w: World, st: Step)
    requires Shape(k, w) && Allowed(k, grace, w, Do(st))
    ensures var w', x := Next(k, grace, w, Do(st)), SectionOf(w.m, st);
            && (RtAhead(w', k.inode) ==> RtAhead(w, k.inode))
            && (RtDone(w') <==> RtDone(w) || (st.RtGo? && x.AddSection?))
            && (st.RtGo? && x == ReleaseSection(k.inode) ==> RtAhead(w, k.inode) && !RtAhead(w', k.inode))
            && (st.RtGo? && x.AddSection? ==> w.rt == 2 && !RtDone(w))
  {
    if st.RtGo? && w.m.rt.RtRelease? && w.m.rt.rel.Each? && w.m.rt.rel.ids != [] {
      var ids := w.m.rt.rel.ids;
      assert ids == [ids[0]] + ids[1..];
    }
  }

  /** The first or the second add of the new cgroup. */
  lemma ComingAdd(s: State, c: Container, n: Uint64, ahead: bool, done: bool, late: bool)
    requires TimersLive(s) && s.captured.Keys <= s.kernel && Coming(s, n, ahead, done, false, late)
    ensures Coming(Add(s, n, c, true), n, ahead, true, true, Blocked(s, n))
  {
    AddNew(s, n, c);
  }

  /** A stale release can reach the new cgroup only if the other goroutine is past its releases. */
  lemma ComingRelease(s: State, x: Uint64, n: Uint64, ahead: bool, ahead': bool, done: bool, both: bool, late: bool)
    requires TimersLive(s) && Coming(s, n, ahead, done, both, late) && (ahead' ==> ahead)
    requires x == n ==> ahead && !both && (done ==> !ahead')
    ensures Coming(Release(s, x), n, ahead', done, both, late)
  {
    if x == n {
      ReleaseNew(s, n);
    } else {
      ReleaseOther(s, x, n);
      SameKeeps(s, Release(s, x), n);
    }
  }

  lemma ComingFire(s: State, t: nat, n: Uint64, ahead: bool, done: bool, both: bool, late: bool)
    requires Coming(s, n, ahead, done, both, late) && t in s.live && !s.live[t].fired
    ensures Coming(Fire(s, t), n, ahead, done, both, late)
  {
    FireAny(s, t, n);
    if s.live[t].cgroup != n { SameKeeps(s, Fire(s, t), n); }
  }

  lemma ComingCallback(s: State, t: nat, removed: bool, n: Uint64, ahead: bool, done: bool, both: bool, late: bool)
    requires Coming(s, n, ahead, done, both, late) && t in s.live && s.live[t].fired
    ensures Coming(Callback(s, t, removed), n, ahead, done, both, late)
  {
    CallbackAny(s, t, removed, n);
    if s.live[t].cgroup != n { SameKeeps(s, Callback(s, t, removed), n); }
  }

  lemma KernelStep(s: State, grace: int, x: Section)
    requires s.captured.Keys <= s.kernel && WatcherSpec.Enabled(s, grace, x)
    ensures WatcherSpec.Apply(s, grace, x).captured.Keys <= WatcherSpec.Apply(s, grace, x).kernel
  {
  }

  lemma ComingQuiet(s: State, grace: int, x: Section, n: Uint64, ahead: bool, done: bool, both: bool, late: bool)
    requires WatcherSpec.Enabled(s, grace, x) && Coming(s, n, ahead, done, both, late)
    requires !x.AddSection? && !x.ReleaseSection? && !x.FireTimer? && !x.RunCallback?
    ensures Coming(WatcherSpec.Apply(s, grace, x), n, ahead, done, both, late)
  {
    var s' := WatcherSpec.Apply(s, grace, x);
    assert s'.live == s.live && s'.timers == s.timers && s'.captured == s.captured && s'.kernel == s.kernel;
    SameKeeps(s, s', n);
  }

  /** Any section but an add of the new cgroup. */
  lemma ComingStep(s: State, grace: int, x: Section, n: Uint64,
                   ahead: bool, ahead': bool, done: bool, both: bool, late: bool)
    requires TimersLive(s) && WatcherSpec.Enabled(s, grace, x) && !x.AddSection?
    requires Coming(s, n, ahead, done, both, late) && (ahead' ==> ahead)
    requires x == ReleaseSection(n) ==> ahead && !both && (done ==> !ahead')
    ensures Coming(WatcherSpec.Apply(s, grace, x), n, ahead', done, both, late)
  {
    if x.ReleaseSection? {
      ComingRelease(s, x.cgroup, n, ahead, ahead', done, both, late);
    } else if x.FireTimer? {
      ComingFire(s, x.timer, n, ahead, done, both, late);
    } else if x.RunCallback? {
      ComingCallback(s, x.timer, x.removed, n, ahead, done, both, late);
    } else {
      ComingQuiet(s, grace, x, n, ahead, done, both, late);
    }
  }

  lemma NewStep(k: Case, grace: int, w: World, st: Step)
    requires Shape(k, w) && NewComing(k, w) && Allowed(k, grace, w, Do(st))
    ensures NewComing(k, Next(k, grace, w, Do(st)))
  {
    var w' := Next(k, grace, w, Do(st));
    var s, x, n := w.m.core, SectionOf(w.m, st), k.inode;
    var ahead, done, both := InoAhead(w, n) || RtAhead(w, n), InoDone(w) || RtDone(w), InoDone(w) && RtDone(w);
    SectionFits(k, grace, w, st);
    StepIsSection(w.m, grace, st);
    StepTimersLive(s, grace, x);
    KernelStep(s, grace, x);
    InoPcStep(k, grace, w, st);
    RtPcStep(k, grace, w, st);
    if x.AddSection? {
      ComingAdd(s, x.c, n, ahead, done, w.late);
    } else {
      ComingStep(s, grace, x, n, ahead, InoAhead(w', n) || RtAhead(w', n), done, both, w.late);
    }
  }

  /** A section other than an add keeps the container of a captured cgroup; an add sets it. */
  lemma HolderSection(s: State, grace: int, x: Section, n: Uint64)
    requires WatcherSpec.Enabled(s, grace, x) && n in WatcherSpec.Apply(s, grace, x).captured
    ensures var s' := WatcherSpec.Apply(s, grace, x);
            if x.AddSection? && x.cgroup == n && (x.put || n in s.captured) then s'.captured[n] == x.c
            else n in s.captured && s'.captured[n] == s.captured[n]
  {
  }

  lemma HeldStep(k: Case, grace: int, w: World, st: Step)
    requires Shape(k, w) && Held(k, w) && Allowed(k, grace, w, Do(st))
    ensures Held(k, Next(k, grace, w, Do(st)))
  {
    SectionFits(k, grace, w, st);
    StepIsSection(w.m, grace, st);
    var x := SectionOf(w.m, st);
    if k.inode in WatcherSpec.Apply(w.m.core, grace, x).captured { HolderSection(w.m.core, grace, x, k.inode); }
  }

  lemma StepInv(k: Case, grace: int, w: World, mv: Move)
    requires Inv(k, w) && Allowed(k, grace, w, mv)
    ensures Inv(k, Next(k, grace, w, mv))
  {
    if mv.Do? {
      ShapeStep(k, grace, w, mv.step);
      OldStep(k, grace, w, mv.step);
      NewStep(k, grace, w, mv.step);
      HeldStep(k, grace, w, mv.step);
    }
  }

  lemma {:induction false} RunInv(k: Case, grace: int, ws: seq<World>, moves: seq<Move>, i: nat)
    requires Run(k, grace, ws, moves) && i < |ws|
    ensures Inv(k, ws[i])
  {
    if i > 0 {
      RunInv(k, grace, ws, moves, i - 1);
      assert Moves(k, grace, ws[i - 1], moves[i - 1], ws[i - 1 + 1]);
      StepInv(k, grace, ws[i - 1], moves[i - 1]);
    }
  }

  /**
   * Restart convergence. In every interleaving, once all four handlers have finished, every
   * older cgroup of the container that is still captured has a pending grace timer; and the
   * new cgroup is captured, in the kernel map, without a pending or outstanding timer, exactly
   * if no callback for it was fired and blocked at its last add; then it is captured for the
   * container of that add.
   */
  lemma Converges(k: Case, grace: int, ws: seq<World>, moves: seq<Move>, i: nat)
    requires Run(k, grace, ws, moves) && i < |ws| && Settled(ws[i])
    ensures var s := ws[i].m.core;
            && (forall cg :: cg in s.captured && s.captured[cg].id == k.id && cg != k.inode ==> cg in s.timers)
            && k.inode !in s.timers
            && (!ws[i].late <==> k.inode in s.captured && NoLive(s, k.inode))
            && (!ws[i].late ==>
                  && k.inode in s.kernel && s.captured[k.inode].id == k.id
                  && ws[i].holder == Some(s.captured[k.inode]))
  {
    RunInv(k, grace, ws, moves, i);
  }
}
