/** The decoded, userspace form of sensor events, and the process identity they carry. */
module Events {
  import opened Types

  /** Nanoseconds per /proc clock tick (USER_HZ is 100). */
  const NS_PER_TICK := 10_000_000

  function StartTicks(startNs: Uint64): Uint64 {
    startNs / NS_PER_TICK
  }

  /**
   * A process GUID on one host and boot. The source hashes (host, boot, tgid, tick);
   * Identity.PreimageInjective shows the hashed bytes determine exactly this pair.
   */
  datatype Guid = Guid(pid: Uint32, tick: Uint64)

  function GuidOf(pid: Uint32, startNs: Uint64): Guid {
    Guid(pid, StartTicks(startNs))
  }

  datatype Kind = KindExec | KindFork | KindExit

  datatype Process = Process(
    guid: Option<Guid>, pid: Uint32, tid: Uint32, uid: Uint32, gid: Uint32,
    cgroup: Uint64, start: Uint64, comm: Text, image: Text, argv: seq<Text>,
    filenameTruncated: bool, argvTruncated: bool, argvReadFailed: bool)

  datatype Parent = Parent(
    guid: Option<Guid>, pid: Uint32, start: Uint64, image: Text, argv: seq<Text>,
    known: bool, external: bool)

  datatype ExitStatus = ExitStatus(code: Uint32, signal: Uint32, raw: Uint32)

  datatype Event = Event(
    kind: Kind, timestamp: Uint64, process: Process, parent: Parent, exit: Option<ExitStatus>)
  {
    function Self(): Guid { GuidOf(process.pid, process.start) }
    function HeaderParent(): Guid { GuidOf(parent.pid, parent.start) }
  }
}
