# A verified model of the eBPF process sensor

The sensor captures process events of one container (or of the whole host) with BPF hooks,
carries them through a ring buffer, keeps a bounded table of processes to report lineage, and
follows the container through restarts. This project models those parts in Dafny and proves what
they keep over every run. `dafny verify dfyconfig.toml` checks all of it.

## Layout

- `Types`, `Events`: fixed-width integers as ranges, the decoded event, process identity.
- `WatcherSpec`, `Grace`, `WatcherMachine`, `Restart`, `LateRestart`: the container watcher. Each critical section
  is one atomic step; timers are armed, fired and blocked on the mutex, or done. `WatcherMachine`
  gives both goroutines program counters, so the stat of the live inode, taken outside the mutex,
  can be stale. `Restart` adds the disk and one restart of the wanted container.
- `Handlers`: the effect of each handler on the state, said once. `ContainerWatcher`: the watcher as an
  object, each method proved against `WatcherSpec` and `Handlers`. `Alone`: a goroutine of
  `WatcherMachine` that runs undisturbed has the same effect.
- `TableSpec`, `TableProps`, `Lineage`, `PlainTable`, `TableEffects`: the process table as one
  recency sequence, with a history of uses and departures, and its laws over whole runs. `Enrichment`:
  what the table records and reports, said on the inputs.
- `ProcTable`: the table as an object with a map, a list of entry objects and counters, proved
  against `TableSpec`.
- `Kernel`, `Startup`, `TornScan`: processes, the event queue, the /proc scan one pid at a time, the
  seeding and the event loop, as one machine.
- `Bytes`, `Argv`, `Records`, `Hooks`, `Identity`: the record layout, `decode`, argv, the hooks, stat
  parsing and GUID bytes. `Ring`: the ring buffer and its reader, for any decoder. `Delivery`: hooks,
  ring and `decode` together.

A GUID is modelled as the pair of process ID and start tick. `Identity.PreimageInjective` shows that
the hashed bytes determine exactly this pair on one host and boot; the hash is taken as injective.

## What the code does not promise

Five plausible statements are false of the code. Each is proved with its exact condition and a failing case.

- A restart ends with the new cgroup captured only if no callback for it was fired and blocked at its
  last add, since `add` ignores the result of Stop (`Restart.Converges`). For every grace period there is
  a restart that loses it (`LateRestart.LateRestartLoses`).
- The absence of in-scope zombies at the beginning does not rule out ghosts: stat and cgroup of one
  scan record can come from two processes that held the pid in turn (`Startup.NoGapNoGhost`, `TornScan.TornReadGhost`).
- A fork that names itself as parent and is confirmed by /proc inserts one key twice
  (`ProcTable.Table.Handle`, `ProcTable.SelfForkBreaks`).
- Fitting 4096 bytes is not necessary for an argument list to come back whole: at 4097 bytes only the
  last terminator is cut (`Hooks.ArgvPipeline`, `Hooks.WholeButFlagged`).
- In a table of one entry, a fork or exec leaves its own entry resident only if /proc does not confirm
  the header's parent or the process is named or recorded as its own parent (`Lineage.OwnEntryResident`,
  `Lineage.OneEntryLosesItself`).

The comment on `releaseContainer` speaks of releasing the container's cgroups; a container that is
renamed away while running keeps its live cgroup captured without a timer. The model follows the code
(`ContainerWatcher.Watcher.Handle`).

## Model

| member | source | states |
|---|---|---|
| Restart.Converges | internal/container/watcher.go:206-269 | for every interleaving of inotify delete/create with runtime die/start, stale stats and timers included: once all four handlers are done each older captured cgroup of the container is in grace, and the new one is captured, in the kernel map and without any timer if and only if no callback for it was blocked at its last add, and then for the container of that add |
| LateRestart.LateRestartLoses | internal/container/watcher.go:209-269 | for every grace period and container, a reachable restart in which all four handlers are done, the last add came after the new cgroup's timer had fired, and the callback has removed the new cgroup |
| Restart.StepInv | internal/container/watcher.go:300-337 | each step of either goroutine keeps: a release of the new cgroup is possible only for a goroutine that has not passed it, at most one timer of it is outstanding, older cgroups wait for the delete handler or are in grace |
| Restart.InoPasses | internal/container/watcher.go:377-400 | the inotify delete handler passes an older captured cgroup only by releasing it, whatever its stat saw |
| WatcherMachine.InterleavingsSafe | internal/container/watcher.go:249-400 | every interleaving of the two goroutines at statement granularity keeps the bounds and the grace history |
| WatcherSpec.RunBounded | internal/container/watcher.go:206-247 | every reachable state: pending timers within captured, captured within kernel, at most 64 captured, captured equals kernel while no RemoveCgroup has failed |
| WatcherSpec.StepBounded | bpf/common.h:59-64 | one section keeps those inclusions and the capacity of 64 |
| Grace.LeavesOnlyByGrace | internal/container/watcher.go:226-247 | a cgroup leaves only in the callback of a timer armed by its release at least grace earlier; while every Stop was in time, without an add in between and with one outstanding timer per cgroup |
| Grace.RunGraceful | internal/container/watcher.go:206-247 | every removal and every outstanding timer goes back to an arming in the history, over every run |
| Grace.LateStopLoses | internal/container/watcher.go:209-212 | with any grace, a cgroup added again after its timer fired is removed by the late callback |
| ContainerWatcher.Watcher.constructor | internal/container/watcher.go:58-69 | a new watcher wants, captures and times nothing; a non-positive grace period becomes 5 s |
| ContainerWatcher.Watcher.Add | internal/container/watcher.go:206-223 | stops a pending timer, then refreshes or puts the cgroup; on success exactly this cgroup is captured for the new container, on failure captured and kernel map are unchanged |
| Alone.RuntimeAlone | internal/container/watcher.go:300-337 | when the runtime goroutine of the machine is idle again after running undisturbed, the event has had the effect of the whole handler: a destroyed or renamed container is no longer wanted, a started one is added |
| Alone.InotifyAlone | internal/container/watcher.go:377-400 | the same for the inotify goroutine |
| Alone.ResyncAlone | internal/container/watcher.go:121-158 | at every statement of an undisturbed resync: the container found becomes wanted and is added if it runs and resolves; nothing is released |
| Alone.RtProgress | internal/container/watcher.go:253-269 | a handler of the runtime goroutine can always go on and comes nearer to its end |
| ContainerWatcher.Watcher.Release | internal/container/watcher.go:226-236 | arms a timer only for a captured cgroup without one |
| ContainerWatcher.Watcher.Callback | internal/container/watcher.go:236-246 | forgets the cgroup even if the kernel map call fails |
| ContainerWatcher.Watcher.Collect | internal/container/watcher.go:258-265 | for any map order lists, without repetition, exactly the container's captured cgroups other than the live one |
| ContainerWatcher.Watcher.ReleaseContainer | internal/container/watcher.go:253-269 | afterwards in grace are exactly those pending before and the container's captured cgroups other than the live one |
| ContainerWatcher.ReleaseAllMeans | internal/container/watcher.go:266-268 | releasing a list leaves the captured set alone and puts exactly its captured members in grace |
| ContainerWatcher.Watcher.AddRunning | internal/container/watcher.go:179-189 | no change if the cgroup cannot be resolved, else the effect of add |
| ContainerWatcher.Watcher.Handle | internal/container/watcher.go:300-337 | the effect of each runtime event; a container renamed away is forgotten but its live cgroup gets no timer |
| ContainerWatcher.Watcher.CgroupDirEvent | internal/container/watcher.go:377-400 | no change without a wanted container or another name; create adds, delete releases all but the live cgroup |
| ContainerWatcher.Watcher.Lookup | internal/container/watcher.go:96-101 | answers exactly for captured cgroups |
| ContainerWatcher.TargetCgroups.AddCgroup | internal/loader/loader.go:106-111 | fails on a full map unless the key is present |
| ContainerWatcher.TargetCgroups.RemoveCgroup | internal/loader/loader.go:114-119 | an absent key is no error |
| Startup.NoGapNoGhost | cmd/anyone-sensor/main.go:73-116 | after seeding and without eviction for space: every running captured process has an entry or its fork event queued, even with torn reads; and no ghost exists if and only if every scanned record that passes the scope test is of a captured process that had not exited before capture began |
| Startup.UntornNoGhost | internal/proctable/procfs.go:44-88 | no unreaped captured process at the beginning and no torn read imply no ghosts |
| Startup.HostNoGhost | cmd/anyone-sensor/main.go:82-95 | in host mode torn reads leave no ghosts |
| TornScan.TornReadGhost | internal/proctable/procfs.go:44-67 | for every capacity, a reachable state with a ghost although the start had no unreaped process |
| Startup.ScanStep | internal/proctable/procfs.go:70-88 | every step of the scan, with processes coming and going, keeps each older running captured process ahead of the scan or recorded |
| Startup.ConsumeStep | cmd/anyone-sensor/main.go:108-116 | events, sweeps and process activity keep the no-gap and ghost invariant |
| Kernel.DeedOk | bpf/process.bpf.c:102-159 | queued events are of captured processes, exits only of processes that no longer run, and a fork or exec of a process that no longer runs is followed by its exit |
| Kernel.DeedMoves | bpf/process.bpf.c:39-159 | a captured process that appears has its fork queued, one that ends its exit; an identity never runs twice |
| TableProps.RunInvariant | internal/proctable/table.go:89-283 | over every run: unique keys, each the GUID of its entry, size within MaxEntries, list order is order of last use, the history accounts for the residents |
| TableProps.EvictionsAreLeastRecent | internal/proctable/table.go:270-278 | an evicted entry was last used before every survivor |
| TableProps.RunConserves | internal/proctable/table.go:89-283 | residents + EvictedExit + EvictedLRU = seeded + created by fork or exec + ProcLookups |
| TableProps.StepEvolves | internal/proctable/table.go:89-205 | each operation keeps the structure, keeps the lineage of what stays, makes only the named new rows and balances the counters |
| Enrichment.SweepExact | internal/proctable/table.go:192-205 | a sweep removes exactly the entries with exit time + ExitTTL before now, leaves every other lookup as it was, and returns their number |
| Enrichment.ReportedProcessExact | internal/proctable/table.go:127-159 | of the event's process only GUID, image and argv are filled in: an exec keeps its own, a fork or exit of a known process shows its entry's, a new fork its parent's as far as known, an unknown exit is left alone |
| Enrichment.OwnRowRecorded | internal/proctable/table.go:131-155 | the entry of the event's process afterwards: every field of a new entry, image, argv and scope on exec, the first exit time on exit |
| Enrichment.ParentResolved | internal/proctable/table.go:234-259 | the resident entry, else one made field by field of the /proc answer with the same tick, external exactly if out of scope, else none; and both counters |
| Enrichment.NewParentReported | internal/proctable/table.go:161-174 | a parent just read from /proc is reported with that answer's image and argv, external exactly if out of scope |
| Enrichment.NewForkParent | internal/proctable/table.go:133-174 | a new fork reports the parent it read while recording, if the table has two places |
| Enrichment.SeededRows | internal/proctable/table.go:89-119 | every seeded entry is made field by field of an in-scope record, and is linked to the process last scanned under its parent pid, or to none |
| TableProps.SweepEvolves | internal/proctable/table.go:192-205 | a sweep keeps the structure, removes only what it records as expired and balances the counters |
| PlainTable.Indistinguishable | internal/proctable/table.go:89-283 | a run with EvictedLRU 0 gives the same enriched events, lookups, counts and counters as an unbounded plain map |
| PlainTable.SimHandle | internal/proctable/table.go:123-175 | one Handle without eviction gives the event and the lookups of the plain map |
| Lineage.LineageStable | internal/proctable/table.go:131-169 | while an entry stays, its parent, PID and start never change, and every later event of it handled with that parent resident reports that parent, whatever the header names |
| Lineage.ReportedParentExact | internal/proctable/table.go:161-174 | the reported parent GUID is that of the reported PID and start, Known holds exactly if it is in the table, and the details are of an entry with that PID and tick |
| Lineage.OwnEntryResident | internal/proctable/table.go:133-174 | on the inputs, exactly when a fork or exec leaves its process resident: with MaxEntries of at least 2, or if the header or the entry names the process itself as parent, or if /proc does not confirm the header's parent |
| Lineage.OneEntryLosesItself | internal/proctable/table.go:142-174 | an exec whose parent /proc confirms leaves a table of one entry with the parent and without the process |
| Lineage.WalkTerminates | internal/proctable/table.go:220-259 | if every event and scan names a parent earlier in a birth order, a walk along ParentGUID repeats no entry and visits at most as many as the table holds |
| Lineage.RunOrdered | internal/proctable/table.go:220-259 | in every reachable table ParentGUID links go strictly back in the birth order |
| ProcTable.TiedMeans | internal/proctable/table.go:261-283 | the structural invariant read out: the list holds exactly the map's entries, none twice, each under its own key |
| ProcTable.Table.constructor | internal/proctable/table.go:69-80 | an empty table with defaults for non-positive settings |
| ProcTable.Table.Handle | internal/proctable/table.go:123-175 | the structural invariant survives if and only if the event is not a confirmed self-fork, and then state and event are those of the recency sequence |
| ProcTable.Table.Get | internal/proctable/table.go:261-268 | move to front |
| ProcTable.Table.Insert | internal/proctable/table.go:270-278 | push to the front, then evict from the back down to MaxEntries |
| ProcTable.Table.Parent | internal/proctable/table.go:234-259 | the resident entry, or one read from /proc with the same start tick |
| ProcTable.Table.NewFork | internal/proctable/table.go:133-141 | the fork branch is that of the recency sequence, or lists one key twice on a confirmed self-fork |
| ProcTable.Table.Seed | internal/proctable/table.go:89-119 | the in-place loops compute the seeding of the recency sequence |
| ProcTable.Table.Sweep | internal/proctable/table.go:192-205 | for any map order removes exactly the expired entries and keeps the order of the rest |
| ProcTable.Table.Lookup | internal/proctable/table.go:178-189 | the entry of the key, without touching it |
| ProcTable.SelfForkBreaks | internal/proctable/table.go:133-141 | a concrete event that breaks the structural invariant of a fresh table |
| ProcTable.PushMatches | internal/proctable/table.go:270-278 | map and list after insert are those of push-front and truncate |
| Hooks.ArgvPipeline | bpf/process.bpf.c:68-94 | after record, decode and split the argument list is whole exactly if it fits 4096 bytes and is not one empty argument, or has 4097 bytes and a non-empty last argument; truncated is set exactly above 4096 |
| Hooks.ArgvTruncation | internal/loader/decode.go:22-34 | a list that does not fit comes back as a prefix whose last element may be cut |
| Hooks.WholeButFlagged | bpf/process.bpf.c:77-81 | any single argument of 4096 bytes comes back whole from the submitted record and is flagged truncated |
| Hooks.FiringDecodes | internal/loader/decode.go:17-52 | decode turns the record of any exec, fork or exit firing into the event said directly from what the kernel knew |
| Hooks.ImagePipeline | bpf/process.bpf.c:60-66 | the image comes back whole exactly if it is not flagged truncated |
| Hooks.HandleExec | bpf/process.bpf.c:39-95 | skipped outside host mode for a cgroup not in the target map, else dropped or submitted as the reservation goes; the submitted record holds the bounded name and argv and the right flags |
| Hooks.CopyArgv | bpf/process.bpf.c:68-94 | at most 4096 bytes are copied, flags and length as read; a failed read leaves length 0 |
| Hooks.HandleFork | bpf/process.bpf.c:102-126 | threads are no forks, host mode captures all; a submitted record decodes to the child's fork event |
| Hooks.HandleExit | bpf/process.bpf.c:133-159 | only the last thread is an exit, host mode captures all; a submitted record decodes to the exit event with its code |
| Argv.SplitArgv | internal/event/event.go:87-98 | NUL-free pieces that join back to the buffer without one final NUL; none exactly if nothing is left |
| Argv.SplitSound | internal/event/event.go:87-98 | splitting yields NUL-free pieces that join back to the bytes |
| Argv.SeenExact | internal/event/event.go:87-98 | for any bound of at least 2, exactly when the arguments survive being cut at it |
| Records.DecodeSucceeds | internal/loader/decode.go:17-60 | decode succeeds exactly on type 1, 2 or 3 with length 4688, 72 or 80, and then the bytes are the encoding of what was read |
| Records.DecodeFails | internal/loader/decode.go:17-60 | which error is reported, exactly |
| Records.DecodeOffsets | bpf/common.h:34-45 | every event field is read at the offset it has in the C structure |
| Records.DecodeExec | internal/loader/decode.go:22-34 | decode inverts the exec layout |
| Records.DecodeFork | internal/loader/decode.go:35-40 | decode inverts the fork layout |
| Records.DecodeExit | internal/loader/decode.go:41-48 | decode inverts the exit layout |
| Records.DecodeIgnores | internal/loader/decode.go:27-34 | bytes past argv_len and past the first NUL of comm and filename do not matter |
| Records.DecodeIgnoresForkComm | internal/event/event.go:101-106 | bytes past the first NUL of comm do not matter in a fork record |
| Records.DecodeIgnoresExitComm | internal/event/event.go:101-106 | bytes past the first NUL of comm and the padding do not matter in an exit record |
| Records.HeaderInverts | bpf/common.h:34-45 | the header layout is read back field by field |
| Bytes.CStringOf | internal/event/event.go:101-106 | a C string ends at its first NUL, whatever follows |
| Bytes.LEBytes | internal/proctable/guid.go:29-31 | integers are written low byte first |
| Identity.IdentitiesAgree | internal/proctable/procfs.go:44-54 | for every start time and comm, with field 22 the start divided by 10 ms, the stat line parses to the kernel event's GUID bytes, without overflow |
| Identity.TicksAgree | internal/proctable/guid.go:18-21 | the tick is the start divided by 10 ms, and multiplying back is exact for every tick the kernel can write |
| Identity.PreimageBytes | internal/proctable/guid.go:23-36 | the hashed bytes are host, NUL, boot, NUL, 4 bytes of process ID and 8 of the 10 ms tick |
| Identity.ParseStatLine | internal/proctable/procfs.go:117-136 | parent and start time are read back from every stat line, spaces and parentheses in comm included |
| Identity.PreimageInjective | internal/proctable/guid.go:18-39 | with NUL-free host IDs preimages are equal exactly if host, boot, PID and tick are |
| Identity.NulInHostCollides | internal/proctable/guid.go:18-39 | a host ID with a NUL can share a preimage with another host |
| Delivery.FiringsDelivered | internal/loader/loader.go:125-154 | in every run whose records are those the hooks submit, no decode error occurs and the events sent, abandoned or held are exactly the firings' events in order, short of drops and what is still in the ring |
| Ring.RunAccounted | internal/loader/loader.go:125-182 | for any decoder: in-scope firings = records in the ring + held + sent + drops + decode errors + at most one abandoned at cancellation; events come out in reservation order |
| Ring.TotalDrops | internal/loader/loader.go:171-182 | the per-CPU counters summed in 64-bit arithmetic |

## Left out

- Docker client: List, Inspect, Events and CgroupPath are arbitrary answers of the environment.
- Target matching: one boolean per container; which of several matches resync settles on is an arbitrary answer.
- SHA-256 and hex formatting of a GUID: only the hashed bytes are modelled.
- BPF loading, attaching, CO-RE reads and helpers: only their success or failure and the record layout.
- Wall-clock time, logging, flags, JSON output, container metadata on events and reconnect backoff.
- Inotify and file system calls: steps that deliver parsed data.
- Restart.Converges: assumes that resolutions and adds succeed and that no cgroup has inode 0, which the code uses for "no live inode".
- Identity.ParseStatLine: white space is ASCII; the fields after comm hold no other bytes.
- Startup.NoGapNoGhost: a process keeps its cgroup, an identity (PID and tick) is never reused, reads of a running process succeed, and the ring drops nothing.
- ProcTable.Table.Handle: the event is returned as a value instead of being updated in place; a table broken by a confirmed self-fork is not followed further.
- ContainerWatcher.Watcher.Handle: runs alone; interleavings are in WatcherMachine, where its statements are separate steps.
- TableProps.RunConserves: counters are unbounded; 64-bit wrap-around is modelled only in Ring.TotalDrops.
- Aliasing of argv slices and the Go memory model below the mutex: argv is an immutable sequence, critical sections are atomic.
