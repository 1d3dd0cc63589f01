/**
 * The processes of the host as the hooks and /proc see them: fork, exec, exit and reap, pid
 * reuse included, with an event queued for every process of a captured cgroup. No drops.
 */
module Kernel {
  import opened Types
  import opened Events

  /** A process holding a pid: running, or exited and not yet reaped. */
  datatype Proc = Proc(guid: Guid, cgroup: Uint64, live: bool)

  /**
   * ever: every identity that has existed since capture began; mine: those of captured
   * cgroups; born: those forked since; stale: those that had already exited at the beginning.
   */
  datatype Kernel = Kernel(
    procs: map<Uint32, Proc>, queue: seq<Event>, ever: set<Guid>, mine: set<Guid>, born: set<Guid>, stale: set<Guid>)

  datatype Deed = Fork(ev: Event) | Exec(ev: Event) | Exit(ev: Event) | Reap(pid: Uint32)

  predicate Live(k: Kernel, g: Guid) {
    g.pid in k.procs && k.procs[g.pid].guid == g && k.procs[g.pid].live
  }

  /** The event describes the running process that holds its pid. */
  predicate About(k: Kernel, ev: Event) {
    Live(k, ev.Self()) && k.procs[ev.process.pid].cgroup == ev.process.cgroup
  }

  /** A new process takes a free pid and an identity never seen; it is not its own parent. */
  predicate Can(k: Kernel, d: Deed) {
    match d
    case Fork(ev) =>
      && ev.kind.KindFork? && ev.process.pid !in k.procs
      && ev.Self() !in k.ever && ev.Self() != ev.HeaderParent()
    case Exec(ev) => ev.kind.KindExec? && About(k, ev)
    case Exit(ev) => ev.kind.KindExit? && About(k, ev)
    case Reap(pid) => pid in k.procs && !k.procs[pid].live
  }

  /** should_capture, then the ring buffer. */
  function Emit(k: Kernel, scope: Uint64 -> bool, ev: Event): Kernel {
    if scope(ev.process.cgroup) then k.(queue := k.queue + [ev]) else k
  }

  function Do(k: Kernel, scope: Uint64 -> bool, d: Deed): Kernel
    requires Can(k, d)
  {
    match d
    case Fork(ev) =>
      var g := ev.Self();
      Emit(k.(procs := k.procs[ev.process.pid := Proc(g, ev.process.cgroup, true)],
              ever := k.ever + {g},
              mine := if scope(ev.process.cgroup) then k.mine + {g} else k.mine,
              born := k.born + {g}), scope, ev)
    case Exec(ev) => Emit(k, scope, ev)
    case Exit(ev) => Emit(k.(procs := k.procs[ev.process.pid := k.procs[ev.process.pid].(live := false)]), scope, ev)
    case Reap(pid) => k.(procs := k.procs - {pid})
  }

  /** When capture begins: any processes, nothing queued. */
  ghost predicate Begins(k: Kernel, scope: Uint64 -> bool) {
    && k.queue == [] && k.born == {}
    && (forall p :: p in k.procs ==> k.procs[p].guid.pid == p && k.procs[p].guid in k.ever)
    && (forall g :: g in k.ever ==> g.pid in k.procs && k.procs[g.pid].guid == g)
    && (forall g :: g in k.mine <==> g in k.ever && scope(k.procs[g.pid].cgroup))
    && (forall g :: g in k.stale <==> g in k.ever && !k.procs[g.pid].live)
  }

  // ---------------------------------------------------------------- queue

  predicate Is(e: Event, kind: Kind, g: Guid) {
    e.kind == kind && e.Self() == g
  }

  ghost predicate Queued(q: seq<Event>, kind: Kind, g: Guid) {
    exists i :: 0 <= i < |q| && Is(q[i], kind, g)
  }

  ghost predicate ExitAfter(q: seq<Event>, i: int, g: Guid) {
    exists j :: i < j < |q| && 0 <= j && Is(q[j], KindExit, g)
  }

  lemma QueuedAppend(q: seq<Event>, e: Event, kind: Kind, g: Guid)
    ensures Queued(q + [e], kind, g) <==> Queued(q, kind, g) || Is(e, kind, g)
  {
    if Queued(q, kind, g) {
      var i :| 0 <= i < |q| && Is(q[i], kind, g);
      assert Is((q + [e])[i], kind, g);
    }
    if Is(e, kind, g) { assert Is((q + [e])[|q|], kind, g); }
  }

  lemma QueuedPop(q: seq<Event>, kind: Kind, g: Guid)
    requires q != []
    ensures Queued(q, kind, g) <==> Is(q[0], kind, g) || Queued(q[1..], kind, g)
  {
    if Queued(q, kind, g) {
      var i :| 0 <= i < |q| && Is(q[i], kind, g);
      if i > 0 { assert Is(q[1..][i - 1], kind, g); }
    }
    if Queued(q[1..], kind, g) {
      var i :| 0 <= i < |q[1..]| && Is(q[1..][i], kind, g);
      assert Is(q[i + 1], kind, g);
    }
  }

  // ------------------------------------------------------------ invariant

  ghost predicate PidsOk(k: Kernel, scope: Uint64 -> bool) {
    && k.mine <= k.ever && k.stale <= k.ever && k.born <= k.ever
    && (forall p :: p in k.procs ==> k.procs[p].guid.pid == p && k.procs[p].guid in k.ever)
    && (forall p :: p in k.procs ==> (scope(k.procs[p].cgroup) <==> k.procs[p].guid in k.mine))
    && (forall g :: g in k.stale ==> !Live(k, g))
  }

  /**
   * Events are of captured processes that ran when capture began or later; exits only of
   * processes that no longer run; a fork or exec of a process that no longer runs is
   * followed by its exit.
   */
  ghost predicate EventOk(k: Kernel, i: int)
    requires 0 <= i < |k.queue|
  {
    var e := k.queue[i];
    var g := e.Self();
    && g in k.mine && g !in k.stale
    && (e.kind.KindFork? ==> g != e.HeaderParent())
    && (if e.kind.KindExit? then !Live(k, g) else Live(k, g) || ExitAfter(k.queue, i, g))
  }

  ghost predicate QueueOk(k: Kernel) {
    forall i :: 0 <= i < |k.queue| ==> EventOk(k, i)
  }

  ghost predicate KernelOk(k: Kernel, scope: Uint64 -> bool) {
    PidsOk(k, scope) && QueueOk(k)
  }

  /** What one deed means for anyone who watches identities. */
  ghost predicate Moves(k: Kernel, k': Kernel) {
    && k.ever <= k'.ever && k.stale == k'.stale && k.born <= k'.born
    && (forall g :: g in k.ever ==> (g in k'.mine <==> g in k.mine) && (g in k'.born <==> g in k.born))
    && (forall g :: Live(k', g) && !Live(k, g) ==>
          g !in k.ever && g in k'.born && (g in k'.mine ==> Queued(k'.queue, KindFork, g)))
    && (forall g :: Live(k, g) && !Live(k', g) && g in k.mine ==> Queued(k'.queue, KindExit, g))
    && (forall kind, g :: Queued(k.queue, kind, g) ==> Queued(k'.queue, kind, g))
  }

  lemma BeginsOk(k: Kernel, scope: Uint64 -> bool)
    requires Begins(k, scope)
    ensures KernelOk(k, scope)
  {
  }

  lemma EmitQueues(k: Kernel, scope: Uint64 -> bool, ev: Event, kind: Kind, g: Guid)
    ensures Queued(Emit(k, scope, ev).queue, kind, g) <==>
              Queued(k.queue, kind, g) || (scope(ev.process.cgroup) && Is(ev, kind, g))
  {
    QueuedAppend(k.queue, ev, kind, g);
  }

  /** Who runs after a deed. */
  lemma LiveAfter(k: Kernel, scope: Uint64 -> bool, d: Deed, g: Guid)
    requires PidsOk(k, scope) && Can(k, d)
    ensures Live(Do(k, scope, d), g) <==>
            if d.Fork? && g == d.ev.Self() then true else if d.Exit? && g == d.ev.Self() then false else Live(k, g)
  {
  }

  lemma PidsAfter(k: Kernel, scope: Uint64 -> bool, d: Deed)
    requires PidsOk(k, scope) && Can(k, d)
    ensures PidsOk(Do(k, scope, d), scope)
  {
    var k' := Do(k, scope, d);
    forall g | g in k'.stale ensures !Live(k', g) { LiveAfter(k, scope, d, g); }
  }

  lemma ExitStays(q: seq<Event>, e: Event, i: int, g: Guid)
    requires ExitAfter(q, i, g)
    ensures ExitAfter(q + [e], i, g)
  {
    var j :| i < j < |q| && 0 <= j && Is(q[j], KindExit, g);
    assert Is((q + [e])[j], KindExit, g);
  }

  /** An event that was in order stays in order. */
  lemma EventAfter(k: Kernel, scope: Uint64 -> bool, d: Deed, i: int)
    requires PidsOk(k, scope) && Can(k, d) && 0 <= i < |k.queue| && EventOk(k, i)
    ensures EventOk(Do(k, scope, d), i)
  {
    var k' := Do(k, scope, d);
    var g := k.queue[i].Self();
    assert k'.queue[i] == k.queue[i];
    LiveAfter(k, scope, d, g);
    if k'.queue != k.queue {
      assert k'.queue == k.queue + [d.ev];
      if ExitAfter(k.queue, i, g) { ExitStays(k.queue, d.ev, i, g); }
      if d.Exit? && g == d.ev.Self() { assert Is(k'.queue[|k.queue|], KindExit, g); }
    }
  }

  lemma NewEvent(k: Kernel, scope: Uint64 -> bool, d: Deed)
    requires PidsOk(k, scope) && Can(k, d) && |Do(k, scope, d).queue| > |k.queue|
    ensures EventOk(Do(k, scope, d), |k.queue|)
  {
    var k' := Do(k, scope, d);
    assert k'.queue[|k.queue|] == d.ev;
    LiveAfter(k, scope, d, d.ev.Self());
  }

  lemma DeedOk(k: Kernel, scope: Uint64 -> bool, d: Deed)
    requires KernelOk(k, scope) && Can(k, d)
    ensures KernelOk(Do(k, scope, d), scope)
  {
    var k' := Do(k, scope, d);
    PidsAfter(k, scope, d);
    forall i | 0 <= i < |k'.queue| ensures EventOk(k', i) {
      if i < |k.queue| {
        EventAfter(k, scope, d, i);
      } else {
        NewEvent(k, scope, d);
      }
    }
  }

  lemma DeedQueues(k: Kernel, scope: Uint64 -> bool, d: Deed, kind: Kind, g: Guid)
    requires Can(k, d)
    ensures Queued(Do(k, scope, d).queue, kind, g) <==>
            Queued(k.queue, kind, g) || (!d.Reap? && scope(d.ev.process.cgroup) && Is(d.ev, kind, g))
  {
    if !d.Reap? { EmitQueues(k, scope, d.ev, kind, g); }
  }

  lemma DeedMoves(k: Kernel, scope: Uint64 -> bool, d: Deed)
    requires PidsOk(k, scope) && Can(k, d)
    ensures Moves(k, Do(k, scope, d))
  {
    var k' := Do(k, scope, d);
    forall kind, g | Queued(k.queue, kind, g) ensures Queued(k'.queue, kind, g) { DeedQueues(k, scope, d, kind, g); }
    forall g | Live(k', g) && !Live(k, g)
      ensures g !in k.ever && g in k'.born && (g in k'.mine ==> Queued(k'.queue, KindFork, g))
    {
      LiveAfter(k, scope, d, g);
      DeedQueues(k, scope, d, KindFork, g);
    }
    forall g | Live(k, g) && !Live(k', g) && g in k.mine ensures Queued(k'.queue, KindExit, g) {
      LiveAfter(k, scope, d, g);
      DeedQueues(k, scope, d, KindExit, g);
    }
  }

  // -------------------------------------------------------------- consumer

  /** Taking the first event off the queue. */
  function Pop(k: Kernel): Kernel
    requires k.queue != []
  {
    k.(queue := k.queue[1..])
  }

  lemma PopOk(k: Kernel, scope: Uint64 -> bool)
    requires KernelOk(k, scope) && k.queue != []
    ensures KernelOk(Pop(k), scope)
    ensures !k.queue[0].kind.KindExit? ==>
              Live(k, k.queue[0].Self()) || Queued(Pop(k).queue, KindExit, k.queue[0].Self())
  {
    var k' := Pop(k);
    forall g ensures Live(k', g) <==> Live(k, g) {}
    forall i | 0 <= i < |k'.queue| ensures EventOk(k', i) {
      assert EventOk(k, i + 1);
      var g := k'.queue[i].Self();
      if ExitAfter(k.queue, i + 1, g) {
        var j :| i + 1 < j < |k.queue| && 0 <= j && Is(k.queue[j], KindExit, g);
        assert Is(k'.queue[j - 1], KindExit, g);
      }
    }
    var g := k.queue[0].Self();
    assert EventOk(k, 0);
    if ExitAfter(k.queue, 0, g) {
      var j :| 0 < j < |k.queue| && 0 <= j && Is(k.queue[j], KindExit, g);
      assert Is(k'.queue[j - 1], KindExit, g);
    }
  }
}
