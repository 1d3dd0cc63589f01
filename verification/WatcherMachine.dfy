/**
 * The watcher's two goroutines, statement by statement between their critical sections: the
 * runtime event loop (handle) and the inotify loop (cgroupDirEvent). The stat of the live
 * inode in releaseContainer happens outside the mutex, so it can be stale when it is used.
 */
module WatcherMachine {
  import opened Types
  import opened WatcherSpec
  import Grace

  datatype EventKind = Create | Start | Rename | Die | Destroy

  /** releaseContainer: stat the live inode, collect under the mutex, release one by one. */
  datatype Releasing = Stat | Collect(live: Uint64) | Each(ids: seq<Uint64>)

  /** What the runtime goroutine does to wanted after a releaseContainer. */
  datatype After = Finish | Forget | ForgetIfWanted

  datatype RtPc =
    | RtIdle
    | RtCompare(kind: EventKind, c: Container)
    | RtSet(kind: EventKind, c: Container)
    | RtStat(c: Container)
    | RtAdd(c: Container, cgroup: Uint64)
    | RtRelease(id: Text, rel: Releasing, after: After)

  datatype InoPc =
    | InoIdle
    | InoNamed(c: Container, created: bool)
    | InoAdd(c: Container, cgroup: Uint64)
    | InoRelease(id: Text, rel: Releasing)

  datatype Machine = Machine(core: State, rt: RtPc, ino: InoPc)

  /**
   * Answers of the environment to one statement: does the path resolve to the event's name,
   * the inode found (None if the stat fails), the order a map is walked in, whether AddCgroup succeeds.
   */
  datatype Answer = Answer(matched: bool, inode: Option<Uint64>, order: seq<Uint64>, put: bool)

  /** RtEvent begins handle; RtResync begins resync, with the one container it settles on, if any. */
  datatype Step =
    | RtEvent(kind: EventKind, id: Text, inspect: Option<Container>)
    | RtResync(found: Option<Container>)
    | RtGo(a: Answer)
    | InoEvent(created: bool)
    | InoGo(a: Answer)
    | Env(section: Section)

  /** The cgroups releaseContainer collects: the container's, except the one stat'ed as live. */
  function Collected(captured: map<Uint64, Container>, id: Text, live: Uint64): set<Uint64> {
    set cg | cg in captured && captured[cg].id == id && cg != live
  }

  ghost predicate NoDup(ids: seq<Uint64>) {
    forall i, j :: 0 <= i < j < |ids| ==> ids[i] != ids[j]
  }

  ghost predicate Lists(ids: seq<Uint64>, s: set<Uint64>) {
    NoDup(ids) && (forall x :: x in ids <==> x in s)
  }

  /** The live inode releaseContainer works with: 0 if the stat fails. */
  function InodeOr0(inode: Option<Uint64>): Uint64 {
    if inode.Some? then inode.value else 0
  }

  function RelNext(rel: Releasing, a: Answer): Releasing {
    match rel
    case Stat => Collect(InodeOr0(a.inode))
    case Collect(_) => Each(a.order)
    case Each(ids) => if ids == [] then rel else Each(ids[1..])
  }

  ghost predicate RelEnabled(s: State, id: Text, rel: Releasing, a: Answer) {
    rel.Collect? ==> Lists(a.order, Collected(s.captured, id, rel.live))
  }

  function RelSection(rel: Releasing): Section {
    if rel.Each? && rel.ids != [] then ReleaseSection(rel.ids[0]) else Idle
  }

  function AfterSection(id: Text, after: After): Section {
    match after
    case Finish => Idle
    case Forget => ClearWanted
    case ForgetIfWanted => ClearWantedIf(id)
  }

  /** The critical section a step executes, Idle if none. */
  function SectionOf(m: Machine, st: Step): Section {
    match st
    case RtGo(a) => (
      match m.rt
      case RtSet(_, c) => SetWanted(c)
      case RtAdd(c, cgroup) => AddSection(cgroup, c, a.put)
      case RtRelease(id, rel, after) => if rel == Each([]) then AfterSection(id, after) else RelSection(rel)
      case _ => Idle)
    case InoGo(a) => (
      match m.ino
      case InoAdd(c, cgroup) => AddSection(cgroup, c, a.put)
      case InoRelease(_, rel) => RelSection(rel)
      case _ => Idle)
    case Env(x) => x
    case _ => Idle
  }

  function RtBegin(kind: EventKind, id: Text, inspect: Option<Container>): RtPc {
    match kind
    case Die => RtRelease(id, Stat, Finish)
    case Destroy => RtRelease(id, Stat, ForgetIfWanted)
    case _ => if inspect.None? then RtIdle else RtCompare(kind, inspect.value)
  }

  function RtNext(s: State, pc: RtPc, a: Answer): RtPc {
    match pc
    case RtIdle => RtIdle
    case RtCompare(kind, c) =>
      if c.target then RtSet(kind, c)
      else if s.wanted.Some? && s.wanted.value.id == c.id then RtRelease(c.id, Stat, Forget)
      else RtIdle
    case RtSet(kind, c) => if kind.Start? && c.running then RtStat(c) else RtIdle
    case RtStat(c) => if a.inode.Some? then RtAdd(c, a.inode.value) else RtIdle
    case RtAdd(_, _) => RtIdle
    case RtRelease(id, rel, after) => if rel == Each([]) then RtIdle else RtRelease(id, RelNext(rel, a), after)
  }

  function InoBegin(s: State, created: bool): InoPc {
    if s.wanted.None? then InoIdle else InoNamed(s.wanted.value, created)
  }

  function InoNext(pc: InoPc, a: Answer): InoPc {
    match pc
    case InoIdle => InoIdle
    case InoNamed(c, created) =>
      if !a.matched then InoIdle
      else if !created then InoRelease(c.id, Stat)
      else if a.inode.Some? then InoAdd(c, a.inode.value)
      else InoIdle
    case InoAdd(_, _) => InoIdle
    case InoRelease(id, rel) => if rel == Each([]) then InoIdle else InoRelease(id, RelNext(rel, a))
  }

  ghost predicate Enabled(m: Machine, grace: int, st: Step) {
    && WatcherSpec.Enabled(m.core, grace, SectionOf(m, st))
    && match st
       case RtEvent(_, _, _) => m.rt.RtIdle?
       case RtResync(_) => m.rt.RtIdle?
       case RtGo(a) => !m.rt.RtIdle? && (m.rt.RtRelease? ==> RelEnabled(m.core, m.rt.id, m.rt.rel, a))
       case InoEvent(_) => m.ino.InoIdle?
       case InoGo(a) => !m.ino.InoIdle? && (m.ino.InoRelease? ==> RelEnabled(m.core, m.ino.id, m.ino.rel, a))
       case Env(x) => x.FireTimer? || x.RunCallback? || x.Tick?
  }

  ghost function Apply(m: Machine, grace: int, st: Step): Machine
    requires Enabled(m, grace, st)
  {
    var core := WatcherSpec.Apply(m.core, grace, SectionOf(m, st));
    match st
    case RtEvent(kind, id, inspect) => m.(core := core, rt := RtBegin(kind, id, inspect))
    case RtResync(found) => m.(core := core, rt := if found.None? then RtIdle else RtSet(Start, found.value))
    case RtGo(a) => m.(core := core, rt := RtNext(m.core, m.rt, a))
    case InoEvent(created) => m.(core := core, ino := InoBegin(m.core, created))
    case InoGo(a) => m.(core := core, ino := InoNext(m.ino, a))
    case Env(_) => m.(core := core)
  }

  ghost predicate Run(grace: int, states: seq<Machine>, steps: seq<Step>) {
    && |states| == |steps| + 1 && states[0] == Machine(INITIAL, RtIdle, InoIdle)
    && forall i :: 0 <= i < |steps| ==>
         Enabled(states[i], grace, steps[i]) && states[i + 1] == Apply(states[i], grace, steps[i])
  }

  /** A step moves the shared state by the one critical section it executes. */
  lemma StepIsSection(m: Machine, grace: int, st: Step)
    requires Enabled(m, grace, st)
    ensures WatcherSpec.Enabled(m.core, grace, SectionOf(m, st))
    ensures Apply(m, grace, st).core == WatcherSpec.Apply(m.core, grace, SectionOf(m, st))
  {
  }

  ghost predicate Safe(s: State, grace: int) {
    Bounded(s) && Grace.Graceful(s, grace)
  }

  lemma StepSafe(m: Machine, grace: int, st: Step)
    requires Enabled(m, grace, st) && Safe(m.core, grace)
    ensures Safe(Apply(m, grace, st).core, grace)
  {
    var x := SectionOf(m, st);
    StepIsSection(m, grace, st);
    StepBounded(m.core, grace, x);
    Grace.StepGraceful(m.core, grace, x);
  }

  lemma InitialSafe(grace: int)
    ensures Safe(INITIAL, grace)
  {
  }

  /**
   * Every interleaving of the two goroutines and the timer callbacks, stale stats and failing
   * map calls included, is a run of critical sections; so the watcher's invariants hold in it.
   */
  lemma {:induction false} InterleavingsSafe(grace: int, states: seq<Machine>, steps: seq<Step>, k: nat)
    requires Run(grace, states, steps) && k < |states|
    ensures Safe(states[k].core, grace)
  {
    if k == 0 {
      InitialSafe(grace);
    } else {
      InterleavingsSafe(grace, states, steps, k - 1);
      assert states[k - 1 + 1] == Apply(states[k - 1], grace, steps[k - 1]);
      StepSafe(states[k - 1], grace, steps[k - 1]);
    }
  }
}
