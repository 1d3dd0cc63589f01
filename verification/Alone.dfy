/**
 * A goroutine of the machine that runs a handler to its end without interference does to the
 * shared state what the handler does as a whole: Handlers.Handled and Handlers.DirHandled.
 */
module Alone {
  import opened Types
  import opened WatcherSpec
  import opened WatcherMachine
  import opened Handlers

  /** The environment's side of one call: the inode found, and whether AddCgroup works given room. */
  datatype Setting = Setting(matched: bool, inode: Option<Uint64>, works: bool)

  predicate Fair(s: State, e: Setting, a: Answer, adding: Option<Uint64>) {
    && a.matched == e.matched && a.inode == e.inode
    && (adding.Some? ==> (a.put <==> e.works && PutPossible(s, adding.value)))
  }

  // ------------------------------------------------------ releaseContainer

  /** Part of the container's cgroups have been released; ids are still to come. */
  ghost predicate Partly(before: State, s: State, id: Text, live: Uint64, ids: seq<Uint64>) {
    && s.captured == before.captured && s.kernel == before.kernel && s.wanted == before.wanted
    && NoDup(ids) && (forall x :: x in ids ==> x in Collected(before.captured, id, live))
    && forall x :: x in s.timers <==> x in before.timers || (x in Collected(before.captured, id, live) && x !in ids)
  }

  ghost predicate RelDoing(before: State, s: State, id: Text, live: Uint64, rel: Releasing) {
    match rel
    case Stat => s == before
    case Collect(l) => s == before && l == live
    case Each(ids) => Partly(before, s, id, live, ids)
  }

  lemma PartlyStart(s: State, id: Text, live: Uint64, ids: seq<Uint64>)
    requires Lists(ids, Collected(s.captured, id, live))
    ensures Partly(s, s, id, live, ids)
  {
  }

  lemma PartlyStep(before: State, s: State, id: Text, live: Uint64, ids: seq<Uint64>)
    requires Partly(before, s, id, live, ids) && ids != []
    ensures Partly(before, Release(s, ids[0]), id, live, ids[1..])
  {
    assert ids == [ids[0]] + ids[1..];
    assert ids[0] in Collected(before.captured, id, live);
  }

  lemma PartlyEnd(before: State, s: State, id: Text, live: Uint64)
    requires Partly(before, s, id, live, [])
    ensures Releases(before, s, id, live)
  {
  }

  /** One statement of releaseContainer. */
  lemma RelStep(before: State, s: State, grace: int, id: Text, e: Setting, rel: Releasing, a: Answer)
    requires RelDoing(before, s, id, InodeOr0(e.inode), rel) && rel != Each([])
    requires RelEnabled(s, id, rel, a) && a.inode == e.inode
    ensures WatcherSpec.Enabled(s, grace, RelSection(rel))
    ensures RelDoing(before, WatcherSpec.Apply(s, grace, RelSection(rel)), id, InodeOr0(e.inode), RelNext(rel, a))
  {
    match rel
    case Stat =>
    case Collect(live) => PartlyStart(s, id, live, a.order);
    case Each(ids) => PartlyStep(before, s, id, InodeOr0(e.inode), ids);
  }

  // ------------------------------------------------ the runtime goroutine

  datatype Call = Call(kind: EventKind, id: Text, inspect: Option<Container>)

  predicate Noted(call: Call, c: Container) {
    !call.kind.Die? && !call.kind.Destroy? && call.inspect == Some(c)
  }

  /** Which container is being released, and what happens to wanted afterwards. */
  predicate Ending(before: State, call: Call, id: Text, after: After) {
    match after
    case Finish => call.kind.Die? && id == call.id
    case ForgetIfWanted => call.kind.Destroy? && id == call.id
    case Forget => call.inspect.Some? && Noted(call, call.inspect.value)
                   && id == call.inspect.value.id && !call.inspect.value.target && IsWanted(before, id)
  }

  ghost predicate RtDoing(before: State, call: Call, e: Setting, s: State, pc: RtPc) {
    match pc
    case RtIdle => Handled(before, s, call.kind, call.id, call.inspect, e.inode, e.works)
    case RtCompare(kind, c) => s == before && kind == call.kind && Noted(call, c)
    case RtSet(kind, c) => s == before && kind == call.kind && Noted(call, c) && c.target
    case RtStat(c) => s == before.(wanted := Some(c)) && call.kind.Start? && Noted(call, c) && c.target && c.running
    case RtAdd(c, g) =>
      && s == before.(wanted := Some(c)) && call.kind.Start? && Noted(call, c) && c.target && c.running
      && e.inode == Some(g)
    case RtRelease(id, rel, after) =>
      Ending(before, call, id, after) && RelDoing(before, s, id, InodeOr0(e.inode), rel)
  }

  function RtAdding(pc: RtPc): Option<Uint64> {
    if pc.RtAdd? then Some(pc.cgroup) else None
  }

  lemma RtReleaseStep(before: State, call: Call, e: Setting, m: Machine, grace: int, a: Answer)
    requires RtDoing(before, call, e, m.core, m.rt) && m.rt.RtRelease?
    requires WatcherMachine.Enabled(m, grace, RtGo(a)) && a.inode == e.inode
    ensures var m' := WatcherMachine.Apply(m, grace, RtGo(a)); RtDoing(before, call, e, m'.core, m'.rt)
  {
    if m.rt.rel == Each([]) {
      PartlyEnd(before, m.core, m.rt.id, InodeOr0(e.inode));
    } else {
      RelStep(before, m.core, grace, m.rt.id, e, m.rt.rel, a);
    }
  }

  lemma RtStep(before: State, call: Call, e: Setting, m: Machine, grace: int, a: Answer)
    requires RtDoing(before, call, e, m.core, m.rt)
    requires WatcherMachine.Enabled(m, grace, RtGo(a)) && Fair(m.core, e, a, RtAdding(m.rt))
    ensures var m' := WatcherMachine.Apply(m, grace, RtGo(a)); RtDoing(before, call, e, m'.core, m'.rt)
  {
    if m.rt.RtRelease? { RtReleaseStep(before, call, e, m, grace, a); }
  }

  /** The runtime goroutine takes an event and then only it runs. */
  ghost predicate RtRun(grace: int, m: Machine, call: Call, e: Setting, ms: seq<Machine>, answers: seq<Answer>) {
    && |ms| == |answers| + 1 && WatcherMachine.Enabled(m, grace, RtEvent(call.kind, call.id, call.inspect))
    && ms[0] == WatcherMachine.Apply(m, grace, RtEvent(call.kind, call.id, call.inspect))
    && forall i :: 0 <= i < |answers| ==> RtMoves(grace, e, ms[i], answers[i], ms[i + 1])
  }

  ghost predicate RtMoves(grace: int, e: Setting, m: Machine, a: Answer, m': Machine) {
    && WatcherMachine.Enabled(m, grace, RtGo(a)) && Fair(m.core, e, a, RtAdding(m.rt))
    && m' == WatcherMachine.Apply(m, grace, RtGo(a))
  }

  lemma {:induction false} RtRunDoing(grace: int, m: Machine, call: Call, e: Setting,
                                      ms: seq<Machine>, answers: seq<Answer>, k: nat)
    requires RtRun(grace, m, call, e, ms, answers) && k < |ms|
    ensures RtDoing(m.core, call, e, ms[k].core, ms[k].rt) && ms[k].ino == m.ino
  {
    if k > 0 {
      RtRunDoing(grace, m, call, e, ms, answers, k - 1);
      assert RtMoves(grace, e, ms[k - 1], answers[k - 1], ms[k - 1 + 1]);
      RtStep(m.core, call, e, ms[k - 1], grace, answers[k - 1]);
    }
  }

  /** Whenever the goroutine is idle again, the event has been handled as a whole. */
  lemma RuntimeAlone(grace: int, m: Machine, call: Call, e: Setting, ms: seq<Machine>, answers: seq<Answer>, k: nat)
    requires RtRun(grace, m, call, e, ms, answers) && k < |ms| && ms[k].rt.RtIdle?
    ensures Handled(m.core, ms[k].core, call.kind, call.id, call.inspect, e.inode, e.works)
  {
    RtRunDoing(grace, m, call, e, ms, answers, k);
  }

  // ---------------------------------------------------------------- resync

  /** resync with the container it settled on: wanted, and added if it runs. */
  ghost predicate SyncDoing(before: State, found: Option<Container>, e: Setting, s: State, pc: RtPc) {
    match pc
    case RtIdle => if found.None? then s == before else Targets(before, s, found.value, true, e.inode, e.works)
    case RtSet(kind, c) => s == before && kind.Start? && found == Some(c)
    case RtStat(c) => s == before.(wanted := Some(c)) && found == Some(c) && c.running
    case RtAdd(c, g) => s == before.(wanted := Some(c)) && found == Some(c) && c.running && e.inode == Some(g)
    case _ => false
  }

  lemma {:induction false} ResyncAlone(grace: int, m: Machine, found: Option<Container>, e: Setting,
                                       ms: seq<Machine>, answers: seq<Answer>, k: nat)
    requires |ms| == |answers| + 1 && k < |ms| && WatcherMachine.Enabled(m, grace, RtResync(found))
    requires ms[0] == WatcherMachine.Apply(m, grace, RtResync(found))
    requires forall i :: 0 <= i < |answers| ==> RtMoves(grace, e, ms[i], answers[i], ms[i + 1])
    ensures SyncDoing(m.core, found, e, ms[k].core, ms[k].rt)
  {
    if k > 0 {
      ResyncAlone(grace, m, found, e, ms, answers, k - 1);
      assert RtMoves(grace, e, ms[k - 1], answers[k - 1], ms[k - 1 + 1]);
    }
  }

  // ------------------------------------------------ the inotify goroutine

  ghost predicate InoDoing(before: State, created: bool, e: Setting, s: State, pc: InoPc) {
    match pc
    case InoIdle => DirHandled(before, s, created, e.matched, e.inode, e.works)
    case InoNamed(c, made) => s == before && before.wanted == Some(c) && made == created
    case InoAdd(c, g) => s == before && before.wanted == Some(c) && created && e.matched && e.inode == Some(g)
    case InoRelease(id, rel) =>
      && IsWanted(before, id) && !created && e.matched
      && RelDoing(before, s, id, InodeOr0(e.inode), rel)
  }

  function InoAdding(pc: InoPc): Option<Uint64> {
    if pc.InoAdd? then Some(pc.cgroup) else None
  }

  lemma InoReleaseStep(before: State, created: bool, e: Setting, m: Machine, grace: int, a: Answer)
    requires InoDoing(before, created, e, m.core, m.ino) && m.ino.InoRelease?
    requires WatcherMachine.Enabled(m, grace, InoGo(a)) && a.inode == e.inode
    ensures var m' := WatcherMachine.Apply(m, grace, InoGo(a)); InoDoing(before, created, e, m'.core, m'.ino)
  {
    if m.ino.rel == Each([]) {
      PartlyEnd(before, m.core, m.ino.id, InodeOr0(e.inode));
    } else {
      RelStep(before, m.core, grace, m.ino.id, e, m.ino.rel, a);
    }
  }

  ghost predicate InoMoves(grace: int, e: Setting, m: Machine, a: Answer, m': Machine) {
    && WatcherMachine.Enabled(m, grace, InoGo(a)) && Fair(m.core, e, a, InoAdding(m.ino))
    && m' == WatcherMachine.Apply(m, grace, InoGo(a))
  }

  lemma InoStep(before: State, created: bool, e: Setting, m: Machine, grace: int, a: Answer, m': Machine)
    requires InoDoing(before, created, e, m.core, m.ino) && InoMoves(grace, e, m, a, m')
    ensures InoDoing(before, created, e, m'.core, m'.ino)
  {
    if m.ino.InoRelease? { InoReleaseStep(before, created, e, m, grace, a); }
  }

  /** The inotify goroutine takes an event and then only it runs. */
  ghost predicate InoRun(grace: int, m: Machine, created: bool, e: Setting, ms: seq<Machine>, answers: seq<Answer>) {
    && |ms| == |answers| + 1 && WatcherMachine.Enabled(m, grace, InoEvent(created))
    && ms[0] == WatcherMachine.Apply(m, grace, InoEvent(created))
    && forall i :: 0 <= i < |answers| ==> InoMoves(grace, e, ms[i], answers[i], ms[i + 1])
  }

  lemma {:induction false} InoRunDoing(grace: int, m: Machine, created: bool, e: Setting,
                                       ms: seq<Machine>, answers: seq<Answer>, k: nat)
    requires InoRun(grace, m, created, e, ms, answers) && k < |ms|
    ensures InoDoing(m.core, created, e, ms[k].core, ms[k].ino)
  {
    if k > 0 {
      InoRunDoing(grace, m, created, e, ms, answers, k - 1);
      assert InoMoves(grace, e, ms[k - 1], answers[k - 1], ms[k - 1 + 1]);
      InoStep(m.core, created, e, ms[k - 1], grace, answers[k - 1], ms[k]);
    }
  }

  /** Whenever the goroutine is idle again, the directory event has been handled as a whole. */
  lemma InotifyAlone(grace: int, m: Machine, created: bool, e: Setting,
                     ms: seq<Machine>, answers: seq<Answer>, k: nat)
    requires InoRun(grace, m, created, e, ms, answers) && k < |ms| && ms[k].ino.InoIdle?
    ensures DirHandled(m.core, ms[k].core, created, e.matched, e.inode, e.works)
  {
    InoRunDoing(grace, m, created, e, ms, answers, k);
  }

  // ---------------------------------------------------------- coming to an end

  lemma {:induction false} Enumerate(s: set<Uint64>) returns (ids: seq<Uint64>)
    ensures Lists(ids, s)
    decreases |s|
  {
    if s == {} {
      ids := [];
    } else {
      var x :| x in s;
      var rest := Enumerate(s - {x});
      ids := [x] + rest;
    }
  }

  /** The reply of the environment for the statement the runtime goroutine is at. */
  ghost function RtReply(m: Machine, e: Setting, order: seq<Uint64>): Answer {
    var put := e.works && m.rt.RtAdd? && PutPossible(m.core, m.rt.cgroup);
    Answer(e.matched, e.inode, order, put)
  }

  /** How far a goroutine is from the end: the stage, then the cgroups still to release. */
  function RtStage(pc: RtPc): nat {
    match pc
    case RtIdle => 0
    case RtAdd(_, _) => 1
    case RtStat(_) => 2
    case RtSet(_, _) => 3
    case RtRelease(_, rel, _) => (match rel case Each(_) => 1 case Collect(_) => 2 case Stat => 3)
    case RtCompare(_, _) => 4
  }

  function RtLeft(pc: RtPc): nat {
    if pc.RtRelease? && pc.rel.Each? then |pc.rel.ids| else 0
  }

  /** A goroutine that is not idle can always go on, and then is nearer to its end. */
  lemma RtProgress(grace: int, e: Setting, m: Machine) returns (a: Answer, m': Machine)
    requires !m.rt.RtIdle?
    ensures RtMoves(grace, e, m, a, m')
    ensures RtStage(m'.rt) < RtStage(m.rt) || (RtStage(m'.rt) == RtStage(m.rt) && RtLeft(m'.rt) < RtLeft(m.rt))
  {
    var order := [];
    if m.rt.RtRelease? && m.rt.rel.Collect? {
      order := Enumerate(Collected(m.core.captured, m.rt.id, m.rt.rel.live));
    }
    a := RtReply(m, e, order);
    m' := WatcherMachine.Apply(m, grace, RtGo(a));
  }
}
