/**
 * What one handler does to the watcher's state when nothing else runs in between, said on the
 * state before and after. The object's methods and the goroutines of the machine both do this.
 */
module Handlers {
  import opened Types
  import opened WatcherSpec
  import opened WatcherMachine

  predicate IsWanted(s: State, id: Text) {
    s.wanted.Some? && s.wanted.value.id == id
  }

  /** In grace after releaseContainer: a captured cgroup of the container unless it is the live one. */
  ghost predicate Releases(before: State, s: State, id: Text, live: Uint64) {
    && s.captured == before.captured && s.kernel == before.kernel
    && forall x :: x in s.timers <==>
         x in before.timers || (x in before.captured && before.captured[x].id == id && x != live)
  }

  /** The container becomes the wanted one; if it has just started, its cgroup is added. */
  ghost predicate Targets(before: State, s: State, c: Container, start: bool, inode: Option<Uint64>, works: bool) {
    var named := before.(wanted := Some(c));
    if start && c.running && inode.Some? then
      s == Add(named, inode.value, c, works && PutPossible(named, inode.value))
    else s == named
  }

  /** What create, start and rename do once the container has been inspected. */
  ghost predicate Inspected(before: State, s: State, c: Container, start: bool, inode: Option<Uint64>, works: bool) {
    if c.target then Targets(before, s, c, start, inode, works)
    else if IsWanted(before, c.id) then Releases(before, s, c.id, InodeOr0(inode)) && s.wanted == None
    else s == before
  }

  /**
   * handle. A container renamed away from the target is forgotten, but its cgroup that is live
   * on disk gets no grace timer: it stays captured. A destroyed one is forgotten if it was wanted.
   */
  ghost predicate Handled(before: State, s: State, kind: EventKind, id: Text, inspect: Option<Container>,
                          inode: Option<Uint64>, works: bool)
  {
    if kind.Die? then Releases(before, s, id, InodeOr0(inode)) && s.wanted == before.wanted
    else if kind.Destroy? then
      && Releases(before, s, id, InodeOr0(inode))
      && s.wanted == if IsWanted(before, id) then None else before.wanted
    else if inspect.None? then s == before
    else Inspected(before, s, inspect.value, kind.Start?, inode, works)
  }

  /** cgroupDirEvent: nothing without a wanted container or for another directory. */
  ghost predicate DirHandled(before: State, s: State, created: bool, matched: bool,
                             inode: Option<Uint64>, works: bool)
  {
    if before.wanted.None? || !matched then s == before
    else if !created then
      Releases(before, s, before.wanted.value.id, InodeOr0(inode)) && s.wanted == before.wanted
    else if inode.None? then s == before
    else s == Add(before, inode.value, before.wanted.value, works && PutPossible(before, inode.value))
  }
}
