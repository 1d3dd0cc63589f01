/**
 * The container watcher's shared state and its critical sections. Each function here is one
 * section under the mutex (or one kernel or timer event), so any interleaving of the
 * watcher's goroutines is a sequence of them.
 */
module WatcherSpec {
  import opened Types

  /** target is the answer of Target.Matches for this container. */
  datatype Container = Container(id: Text, running: bool, target: bool)

  /** A grace timer: armed, or fired with its callback waiting for the mutex. */
  datatype Timer = Timer(cgroup: Uint64, armedAt: int, fired: bool)

  /** History of the captured set. */
  datatype Note =
    | Added(cgroup: Uint64)
    | Armed(cgroup: Uint64, timer: nat, at: int)
    | Removed(cgroup: Uint64, timer: nat, at: int)

  /**
   * captured is byCgroup; timers holds the pending timer of a cgroup; kernel is target_cgroups;
   * live are the timers that are armed or blocked. late, failed and log are history: late
   * says that some Stop came after its timer had fired, failed that some RemoveCgroup failed.
   */
  datatype State = State(
    wanted: Option<Container>, captured: map<Uint64, Container>, timers: map<Uint64, nat>, kernel: set<Uint64>,
    live: map<nat, Timer>, next: nat, now: int, late: bool, failed: bool, log: seq<Note>)

  const MAX_CGROUPS := 64

  const INITIAL := State(None, map[], map[], {}, map[], 0, 0, false, false, [])

  /** Put on a hash map of 64 entries can only succeed for a present key or with room left. */
  predicate PutPossible(s: State, cgroup: Uint64) {
    cgroup in s.kernel || |s.kernel| < MAX_CGROUPS
  }

  /** The first part of add: stop and forget a pending timer. A fired one is not stopped. */
  function StopTimer(s: State, cgroup: Uint64): State {
    if cgroup !in s.timers then s
    else
      var t := s.timers[cgroup];
      var fired := t in s.live && s.live[t].fired;
      s.(timers := s.timers - {cgroup},
         live := if fired then s.live else s.live - {t},
         late := s.late || fired)
  }

  /** add: put is what AddCgroup answers if it is called. */
  function Add(s: State, cgroup: Uint64, c: Container, put: bool): State {
    var s1 := StopTimer(s, cgroup);
    if cgroup in s1.captured then s1.(captured := s1.captured[cgroup := c], log := s1.log + [Added(cgroup)])
    else if !put then s1
    else s1.(captured := s1.captured[cgroup := c], kernel := s1.kernel + {cgroup}, log := s1.log + [Added(cgroup)])
  }

  /** release: arm a grace timer unless the cgroup is unknown or one is pending. */
  function Release(s: State, cgroup: Uint64): State {
    if cgroup !in s.captured || cgroup in s.timers then s
    else
      s.(timers := s.timers[cgroup := s.next],
         live := s.live[s.next := Timer(cgroup, s.now, false)],
         next := s.next + 1,
         log := s.log + [Armed(cgroup, s.next, s.now)])
  }

  /** The grace period is over: the callback starts and waits for the mutex. */
  function Fire(s: State, t: nat): State
    requires t in s.live
  {
    s.(live := s.live[t := s.live[t].(fired := true)])
  }

  /** The callback's critical section; removed is whether RemoveCgroup succeeds. */
  function Callback(s: State, t: nat, removed: bool): State
    requires t in s.live
  {
    var id := s.live[t].cgroup;
    s.(timers := s.timers - {id},
       captured := s.captured - {id},
       kernel := if removed then s.kernel - {id} else s.kernel,
       failed := s.failed || !removed,
       live := s.live - {t},
       log := s.log + [Removed(id, t, s.now)])
  }

  datatype Section =
    | SetWanted(c: Container)
    | ClearWanted
    | ClearWantedIf(id: Text)
    | AddSection(cgroup: Uint64, c: Container, put: bool)
    | ReleaseSection(cgroup: Uint64)
    | FireTimer(timer: nat)
    | RunCallback(timer: nat, removed: bool)
    | Tick(elapsed: nat)
    | Idle

  predicate Enabled(s: State, grace: int, x: Section) {
    match x
    case AddSection(cgroup, _, put) => put ==> PutPossible(s, cgroup)
    case FireTimer(t) => t in s.live && !s.live[t].fired && s.live[t].armedAt + grace <= s.now
    case RunCallback(t, _) => t in s.live && s.live[t].fired
    case _ => true
  }

  function Apply(s: State, grace: int, x: Section): State
    requires Enabled(s, grace, x)
  {
    match x
    case SetWanted(c) => s.(wanted := Some(c))
    case ClearWanted => s.(wanted := None)
    case ClearWantedIf(id) => if s.wanted.Some? && s.wanted.value.id == id then s.(wanted := None) else s
    case AddSection(cgroup, c, put) => Add(s, cgroup, c, put)
    case ReleaseSection(cgroup) => Release(s, cgroup)
    case FireTimer(t) => Fire(s, t)
    case RunCallback(t, removed) => Callback(s, t, removed)
    case Tick(elapsed) => s.(now := s.now + elapsed)
    case Idle => s
  }

  /** Every run of critical sections, in any order and with any answers. */
  ghost predicate Run(grace: int, states: seq<State>, sections: seq<Section>) {
    && |states| == |sections| + 1 && states[0] == INITIAL
    && forall i :: 0 <= i < |sections| ==>
         Enabled(states[i], grace, sections[i]) && states[i + 1] == Apply(states[i], grace, sections[i])
  }

  // ------------------------------------------------ what every state keeps

  /** Timers only for captured cgroups, captured only what the kernel captures, at most 64. */
  ghost predicate Bounded(s: State) {
    && s.timers.Keys <= s.captured.Keys <= s.kernel
    && |s.kernel| <= MAX_CGROUPS
    && (!s.failed ==> s.captured.Keys == s.kernel)
  }

  /** A pending timer is outstanding and belongs to its cgroup; timer numbers are fresh. */
  ghost predicate TimersLive(s: State) {
    && (forall id :: id in s.timers ==> s.timers[id] in s.live && s.live[s.timers[id]].cgroup == id)
    && (forall t :: t in s.live ==> t < s.next)
  }

  lemma StopKeeps(s: State, id: Uint64)
    requires TimersLive(s)
    ensures TimersLive(StopTimer(s, id)) && id !in StopTimer(s, id).timers
  {
  }

  lemma StopBounded(s: State, id: Uint64)
    requires Bounded(s)
    ensures Bounded(StopTimer(s, id))
  {
  }

  lemma AddBounded(s: State, id: Uint64, c: Container, put: bool)
    requires Bounded(s) && (put ==> PutPossible(s, id))
    ensures Bounded(Add(s, id, c, put))
  {
    StopBounded(s, id);
    if id in s.kernel {
      assert s.kernel + {id} == s.kernel;
    } else {
      assert |s.kernel + {id}| == |s.kernel| + 1;
    }
  }

  lemma CallbackBounded(s: State, t: nat, removed: bool)
    requires Bounded(s) && t in s.live
    ensures Bounded(Callback(s, t, removed))
  {
    SubsetSize(s.kernel - {s.live[t].cgroup}, s.kernel);
  }

  lemma StepBounded(s: State, grace: int, x: Section)
    requires Bounded(s) && Enabled(s, grace, x)
    ensures Bounded(Apply(s, grace, x))
  {
    match x
    case AddSection(id, c, put) => AddBounded(s, id, c, put);
    case RunCallback(t, removed) => CallbackBounded(s, t, removed);
    case _ =>
  }

  lemma StepTimersLive(s: State, grace: int, x: Section)
    requires TimersLive(s) && Enabled(s, grace, x)
    ensures TimersLive(Apply(s, grace, x))
  {
    match x
    case AddSection(id, _, _) => StopKeeps(s, id);
    case _ =>
  }

  lemma SubsetSize<T>(a: set<T>, b: set<T>)
    requires a <= b
    ensures |a| <= |b|
  {
    if a != {} {
      var x :| x in a;
      SubsetSize(a - {x}, b - {x});
    }
  }

  /**
   * In every reachable state: pending timers within captured, captured within the kernel
   * set, at most 64 captured; captured equals kernel while no RemoveCgroup has failed.
   */
  lemma {:induction false} RunBounded(grace: int, states: seq<State>, sections: seq<Section>, k: nat)
    requires Run(grace, states, sections) && k < |states|
    ensures Bounded(states[k]) && TimersLive(states[k])
    ensures |states[k].captured| <= 64
  {
    if k > 0 {
      RunBounded(grace, states, sections, k - 1);
      StepBounded(states[k - 1], grace, sections[k - 1]);
      StepTimersLive(states[k - 1], grace, sections[k - 1]);
      assert states[k - 1 + 1] == Apply(states[k - 1], grace, sections[k - 1]);
    }
    SubsetSize(states[k].captured.Keys, states[k].kernel);
  }
}
