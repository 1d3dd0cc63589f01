/** The BPF hooks: what each one submits, and what userspace reads back from it. */
module Hooks {
  import opened Types
  import opened Events
  import opened Bytes
  import opened Argv
  import opened Records

  /** The fields the hooks read from a task and its real parent. */
  datatype Task = Task(
    pid: Uint32, tgid: Uint32, ppid: Uint32, uid: Uint32, gid: Uint32,
    cgroup: Uint64, start: Uint64, parentStart: Uint64)

  datatype Outcome = Skipped | RingFull | Submitted(raw: seq<Byte>)

  /** should_capture: every program asks this before reserving space. */
  predicate ShouldCapture(host: bool, targets: set<Uint64>, cgroup: Uint64) {
    host || cgroup in targets
  }

  function FillHeader(kind: Uint32, task: Task, now: Uint64): Header {
    Header(kind, task.pid, task.tgid, task.ppid, task.uid, task.gid, now, task.cgroup, task.start, task.parentStart)
  }

  /**
   * What an exec sees: the executed file name, whether reading it worked, the bytes between
   * arg_start and arg_end, whether reading them worked, and the old contents of the reserved slot.
   */
  datatype ExecInput = ExecInput(
    task: Task, now: Uint64, comm: seq<Byte>, name: Text, nameRead: bool,
    argStart: Uint64, argEnd: Uint64, memory: seq<Byte>, memoryRead: bool, slot: ExecRecord)
  {
    ghost predicate Real() {
      && |comm| == COMM_LEN && slot.Sized() && NulFree(name)
      && |memory| == if argEnd > argStart then argEnd - argStart else 0
    }
  }

  /** bpf_probe_read_kernel_str into a fixed buffer: at most n - 1 bytes, then a NUL. */
  function ReadStr(dst: seq<Byte>, src: Text): (r: seq<Byte>)
    requires dst != []
    ensures |r| == |dst|
  {
    var n := if |src| < |dst| then |src| else |dst| - 1;
    src[..n] + [0] + dst[n + 1..]
  }

  function Overwrite(dst: seq<Byte>, src: seq<Byte>): (r: seq<Byte>)
    requires |src| <= |dst|
    ensures |r| == |dst|
  {
    src + dst[|src|..]
  }

  /** The record an exec submits, as the reader will see it. */
  ghost predicate ExecSubmits(x: ExecInput, r: ExecRecord) {
    && r.Sized()
    && r.hdr == FillHeader(EVENT_EXEC, x.task, x.now) && r.comm == x.comm
    && CString(r.filename) == (if x.nameRead then Shorten(x.name, FILENAME_LEN - 1) else [])
    && (r.filenameTruncated != 0 <==> |x.name| >= FILENAME_LEN)
    && (r.argvTruncated != 0 <==> |x.memory| > ARGV_LEN)
    && (r.argvReadFailed != 0 <==> !x.memoryRead)
    && r.argvLen <= ARGV_LEN
    && r.argv[..r.argvLen] == (if x.memoryRead then Shorten(x.memory, ARGV_LEN) else [])
  }

  /** A hook firing that is in scope: what the kernel knows at that moment. */
  datatype Firing =
    | ExecFired(x: ExecInput)
    | ForkFired(child: Task, now: Uint64, comm: seq<Byte>)
    | ExitFired(task: Task, code: Uint32, now: Uint64, comm: seq<Byte>)

  /** The bytes are a record that the firing submits. */
  ghost predicate Submits(f: Firing, raw: seq<Byte>) {
    match f
    case ExecFired(x) => exists r :: ExecSubmits(x, r) && raw == EncodeExec(r)
    case ForkFired(child, now, comm) =>
      |comm| == COMM_LEN && raw == EncodeFork(ForkRecord(FillHeader(EVENT_FORK, child, now), comm))
    case ExitFired(task, code, now, comm) =>
      |comm| == COMM_LEN && raw == EncodeExit(ExitRecord(FillHeader(EVENT_EXIT, task, now), comm, code, 0))
  }

  function Shorten(s: seq<Byte>, n: nat): seq<Byte> {
    if |s| <= n then s else s[..n]
  }

  lemma ReadStrMeans(dst: seq<Byte>, src: Text)
    requires dst != [] && NulFree(src)
    ensures CString(ReadStr(dst, src)) == Shorten(src, |dst| - 1)
  {
    var n := if |src| < |dst| then |src| else |dst| - 1;
    CStringOf(src[..n], dst[n + 1..]);
    assert src[..n] == Shorten(src, |dst| - 1);
  }

  /** The file name part of handle_exec: a failed read leaves an empty name. */
  method CopyName(x: ExecInput, slot: ExecRecord) returns (e: ExecRecord)
    requires x.Real() && slot.Sized()
    ensures e.Sized() && e == slot.(filename := e.filename, filenameTruncated := e.filenameTruncated)
    ensures CString(e.filename) == if x.nameRead then Shorten(x.name, FILENAME_LEN - 1) else []
    ensures e.filenameTruncated != 0 <==> |x.name| >= FILENAME_LEN
  {
    var flen := |x.name| + 1;
    e := slot.(filenameTruncated := if flen > FILENAME_LEN then 1 else 0);
    if x.nameRead {
      ReadStrMeans(e.filename, x.name);
      e := e.(filename := ReadStr(e.filename, x.name));
    } else {
      e := e.(filename := e.filename[0 := 0]);
      assert CString(e.filename) == [];
    }
  }

  /** The argv part of handle_exec: at most 4096 bytes; a failed read leaves by its own path. */
  method CopyArgv(x: ExecInput, slot: ExecRecord) returns (e: ExecRecord)
    requires x.Real() && slot.Sized()
    ensures e.Sized() && e.hdr == slot.hdr && e.comm == slot.comm && e.filename == slot.filename
    ensures e.filenameTruncated == slot.filenameTruncated
    ensures e.argvTruncated != 0 <==> |x.memory| > ARGV_LEN
    ensures e.argvReadFailed != 0 <==> !x.memoryRead
    ensures e.argvLen <= ARGV_LEN && e.argv[..e.argvLen] == if x.memoryRead then Shorten(x.memory, ARGV_LEN) else []
  {
    var len := if x.argEnd > x.argStart then x.argEnd - x.argStart else 0;
    e := slot.(argvTruncated := 0, argvReadFailed := 0, pad := 0);
    if len >= ARGV_LEN {
      e := e.(argvTruncated := if len > ARGV_LEN then 1 else 0);
      len := ARGV_LEN;
    } else {
      len := len % ARGV_LEN;
    }
    if x.memoryRead {
      e := e.(argv := Overwrite(e.argv, x.memory[..len]), argvLen := len);
      assert e.argv[..len] == x.memory[..len] == Shorten(x.memory, ARGV_LEN);
    } else {
      e := e.(argvLen := 0, argvReadFailed := 1);
    }
  }

  /** handle_exec: fill the reserved slot field by field, then submit it. */
  method HandleExec(host: bool, targets: set<Uint64>, reserved: bool, x: ExecInput)
    returns (out: Outcome, ghost r: ExecRecord)
    requires x.Real()
    ensures out.Skipped? <==> !host && x.task.cgroup !in targets
    ensures out.RingFull? <==> (host || x.task.cgroup in targets) && !reserved
    ensures out.Submitted? <==> (host || x.task.cgroup in targets) && reserved
    ensures out.Submitted? ==> ExecSubmits(x, r) && out.raw == EncodeExec(r) && Submits(ExecFired(x), out.raw)
  {
    r := x.slot;
    if !ShouldCapture(host, targets, x.task.cgroup) {
      return Skipped, r;
    }
    if !reserved {
      return RingFull, r;
    }
    var e := x.slot.(hdr := FillHeader(EVENT_EXEC, x.task, x.now), comm := x.comm);
    e := CopyName(x, e);
    e := CopyArgv(x, e);
    r := e;
    out := Submitted(EncodeExec(e));
  }

  /** handle_fork: threads are not forks; the record describes the child. */
  method HandleFork(host: bool, targets: set<Uint64>, reserved: bool, child: Task, now: Uint64, comm: seq<Byte>)
    returns (out: Outcome)
    requires |comm| == COMM_LEN
    ensures out.Skipped? <==> child.pid != child.tgid || (!host && child.cgroup !in targets)
    ensures out.RingFull? <==> child.pid == child.tgid && (host || child.cgroup in targets) && !reserved
    ensures out.Submitted? <==> child.pid == child.tgid && (host || child.cgroup in targets) && reserved
    ensures out.Submitted? ==>
              && Submits(ForkFired(child, now, comm), out.raw)
              && Decode(out.raw) == Ok(ForkEvent(ForkRecord(FillHeader(EVENT_FORK, child, now), comm)))
  {
    if child.pid != child.tgid || !ShouldCapture(host, targets, child.cgroup) {
      return Skipped;
    }
    if !reserved {
      return RingFull;
    }
    var e := ForkRecord(FillHeader(EVENT_FORK, child, now), comm);
    DecodeFork(e);
    out := Submitted(EncodeFork(e));
  }

  /** handle_exit: only the last thread of a process (live == 0) is a process exit. */
  method HandleExit(host: bool, targets: set<Uint64>, reserved: bool,
                    task: Task, live: int, code: Uint32, now: Uint64, comm: seq<Byte>)
    returns (out: Outcome)
    requires |comm| == COMM_LEN
    ensures out.Skipped? <==> live != 0 || (!host && task.cgroup !in targets)
    ensures out.RingFull? <==> live == 0 && (host || task.cgroup in targets) && !reserved
    ensures out.Submitted? <==> live == 0 && (host || task.cgroup in targets) && reserved
    ensures out.Submitted? ==>
              && Submits(ExitFired(task, code, now, comm), out.raw)
              && Decode(out.raw) == Ok(ExitEvent(ExitRecord(FillHeader(EVENT_EXIT, task, now), comm, code, 0)))
  {
    if live != 0 || !ShouldCapture(host, targets, task.cgroup) {
      return Skipped;
    }
    if !reserved {
      return RingFull;
    }
    var e := ExitRecord(FillHeader(EVENT_EXIT, task, now), comm, code, 0);
    DecodeExit(e);
    out := Submitted(EncodeExit(e));
  }

  // ------------------------------------------------------------ pipelines

  /** What decode makes of the record an exec submits. */
  lemma ExecDecodes(x: ExecInput, r: ExecRecord)
    requires ExecSubmits(x, r)
    ensures Decode(EncodeExec(r)).Ok?
    ensures var p := Decode(EncodeExec(r)).event.process;
            && p.pid == x.task.tgid && p.start == x.task.start && p.cgroup == x.task.cgroup
            && p.image == (if x.nameRead then Shorten(x.name, 511) else [])
            && p.argv == (if x.memoryRead then ArgvOf(Shorten(x.memory, 4096)) else [])
            && p.argvTruncated == (|x.memory| > 4096) && p.argvReadFailed == !x.memoryRead
            && p.filenameTruncated == (|x.name| >= 512)
  {
    DecodeExec(r);
    assert r.argv[..r.argvLen] == if x.memoryRead then Shorten(x.memory, 4096) else [];
  }

  /** The image comes back whole exactly when it is not flagged as truncated. */
  lemma ImagePipeline(x: ExecInput, r: ExecRecord)
    requires ExecSubmits(x, r) && x.nameRead
    ensures Decode(EncodeExec(r)).Ok?
    ensures var p := Decode(EncodeExec(r)).event.process;
            p.image == x.name <==> !p.filenameTruncated
  {
    ExecDecodes(x, r);
  }

  /**
   * Record building, decode and SplitArgv together: the argument list comes back whole
   * exactly when its encoding fits 4096 bytes (and it is not the single empty argument), or
   * when it has 4097 bytes and its last argument is not empty. The truncation flag is set
   * exactly when the encoding exceeds 4096 bytes, so at 4097 it can be set on a whole list.
   */
  lemma ArgvPipeline(x: ExecInput, r: ExecRecord, args: seq<Text>)
    requires ExecSubmits(x, r) && x.memoryRead && Clean(args) && x.memory == Encode(args)
    ensures Decode(EncodeExec(r)).Ok?
    ensures var p := Decode(EncodeExec(r)).event.process;
            && (p.argvTruncated <==> |Encode(args)| > 4096)
            && (p.argv == args <==>
                  if |Encode(args)| <= 4096 then args != [[]]
                  else |Encode(args)| == 4097 && args[|args| - 1] != [])
  {
    ExecDecodes(x, r);
    SeenExact(args, 4096);
  }

  /** A truncated list is a prefix of the arguments whose last element may be cut. */
  lemma ArgvTruncation(x: ExecInput, r: ExecRecord, args: seq<Text>) returns (k: nat, j: nat)
    requires ExecSubmits(x, r) && x.memoryRead && Clean(args) && x.memory == Encode(args) && |Encode(args)| > 4096
    ensures Decode(EncodeExec(r)).Ok? && k < |args| && j <= |args[k]|
    ensures Decode(EncodeExec(r)).event.process.argv == if j == 0 then args[..k] else args[..k] + [args[k][..j]]
  {
    ExecDecodes(x, r);
    k, j := SeenCut(args, 4096);
  }

  /** Any single argument of 4096 bytes comes back whole although it is flagged as truncated. */
  lemma WholeButFlagged(x: ExecInput, r: ExecRecord, s: Text)
    requires ExecSubmits(x, r) && x.memoryRead && NulFree(s) && |s| == 4096 && x.memory == Encode([s])
    ensures Decode(EncodeExec(r)).Ok?
    ensures var p := Decode(EncodeExec(r)).event.process; p.argv == [s] && p.argvTruncated
  {
    assert [s][1..] == [];
    assert |Encode([s])| == 4097;
    ArgvPipeline(x, r, [s]);
  }

  // ------------------------------------------------------ from firing to event

  function Base(kind: Kind, task: Task, now: Uint64, comm: seq<Byte>): Event {
    Event(kind, now,
          Process(None, task.tgid, task.pid, task.uid, task.gid, task.cgroup, task.start,
                  CString(comm), [], [], false, false, false),
          Parent(None, task.ppid, task.parentStart, [], [], false, false), None)
  }

  /** What a reader should be told about a firing, said without the record. */
  function Telling(f: Firing): Event {
    match f
    case ExecFired(x) =>
      var e := Base(KindExec, x.task, x.now, x.comm);
      e.(process := e.process.(
           image := if x.nameRead then Shorten(x.name, 511) else [],
           argv := if x.memoryRead then ArgvOf(Shorten(x.memory, 4096)) else [],
           filenameTruncated := |x.name| >= 512, argvTruncated := |x.memory| > 4096, argvReadFailed := !x.memoryRead))
    case ForkFired(child, now, comm) => Base(KindFork, child, now, comm)
    case ExitFired(task, code, now, comm) =>
      Base(KindExit, task, now, comm).(exit := Some(ExitStatus(code / 256 % 256, code % 128, code)))
  }

  lemma ExecTells(x: ExecInput, r: ExecRecord)
    requires ExecSubmits(x, r)
    ensures ExecEvent(r) == Telling(ExecFired(x))
  {
    assert ArgvOf([]) == [];
    assert r.argv[..r.argvLen] == if x.memoryRead then Shorten(x.memory, 4096) else [];
  }

  /** decode undoes every record a hook submits. */
  lemma FiringDecodes(f: Firing, raw: seq<Byte>)
    requires Submits(f, raw)
    ensures Decode(raw) == Ok(Telling(f))
  {
    match f
    case ExecFired(x) =>
      var r :| ExecSubmits(x, r) && raw == EncodeExec(r);
      DecodeExec(r);
      ExecTells(x, r);
    case ForkFired(child, now, comm) => DecodeFork(ForkRecord(FillHeader(EVENT_FORK, child, now), comm));
    case ExitFired(task, code, now, comm) => DecodeExit(ExitRecord(FillHeader(EVENT_EXIT, task, now), comm, code, 0));
  }
}
