/** The ring buffer records of the BPF programs, their byte layout, and decode. */
module Records {
  import opened Types
  import opened Events
  import opened Bytes
  import opened Argv

  const EVENT_EXEC: Uint32 := 1
  const EVENT_FORK: Uint32 := 2
  const EVENT_EXIT: Uint32 := 3

  const HEADER_LEN := 56
  const COMM_LEN := 16
  const FILENAME_LEN := 512
  const ARGV_LEN := 4096

  const EXEC_LEN := 4688
  const FORK_LEN := 72
  const EXIT_LEN := 80

  datatype Header = Header(
    kind: Uint32, pid: Uint32, tgid: Uint32, ppid: Uint32, uid: Uint32, gid: Uint32,
    timestamp: Uint64, cgroup: Uint64, start: Uint64, parentStart: Uint64)

  datatype ExecRecord = ExecRecord(
    hdr: Header, comm: seq<Byte>, filename: seq<Byte>, argvLen: Uint32,
    argvTruncated: Byte, argvReadFailed: Byte, filenameTruncated: Byte, pad: Byte, argv: seq<Byte>)
  {
    predicate Sized() { |comm| == COMM_LEN && |filename| == FILENAME_LEN && |argv| == ARGV_LEN }
  }

  datatype ForkRecord = ForkRecord(hdr: Header, comm: seq<Byte>) {
    predicate Sized() { |comm| == COMM_LEN }
  }

  datatype ExitRecord = ExitRecord(hdr: Header, comm: seq<Byte>, exitCode: Uint32, pad: Uint32) {
    predicate Sized() { |comm| == COMM_LEN }
  }

  // ------------------------------------------------------------- layout

  function EncodeHeader(h: Header): (b: seq<Byte>)
    ensures |b| == HEADER_LEN
  {
    Words32([h.kind, h.pid, h.tgid, h.ppid, h.uid, h.gid])
    + Words64([h.timestamp, h.cgroup, h.start, h.parentStart])
  }

  function EncodeExec(r: ExecRecord): seq<Byte> {
    EncodeHeader(r.hdr) + r.comm + r.filename + LE(r.argvLen, 4)
    + [r.argvTruncated, r.argvReadFailed, r.filenameTruncated, r.pad] + r.argv
  }

  function EncodeFork(r: ForkRecord): seq<Byte> {
    EncodeHeader(r.hdr) + r.comm
  }

  function EncodeExit(r: ExitRecord): seq<Byte> {
    EncodeHeader(r.hdr) + r.comm + LE(r.exitCode, 4) + LE(r.pad, 4)
  }

  function ReadHeader(b: seq<Byte>): Header
    requires |b| >= HEADER_LEN
  {
    Header(Read32(b[0..4]), Read32(b[4..8]), Read32(b[8..12]), Read32(b[12..16]), Read32(b[16..20]), Read32(b[20..24]),
           Read64(b[24..32]), Read64(b[32..40]), Read64(b[40..48]), Read64(b[48..56]))
  }

  function ReadExec(b: seq<Byte>): (r: ExecRecord)
    requires |b| == EXEC_LEN
    ensures r.Sized()
  {
    ExecRecord(ReadHeader(b), b[56..72], b[72..584], Read32(b[584..588]), b[588], b[589], b[590], b[591], b[592..4688])
  }

  function ReadFork(b: seq<Byte>): (r: ForkRecord)
    requires |b| == FORK_LEN
    ensures r.Sized()
  {
    ForkRecord(ReadHeader(b), b[56..72])
  }

  function ReadExit(b: seq<Byte>): (r: ExitRecord)
    requires |b| == EXIT_LEN
    ensures r.Sized()
  {
    ExitRecord(ReadHeader(b), b[56..72], Read32(b[72..76]), Read32(b[76..80]))
  }

  // ------------------------------------------------- the layout inverts

  lemma HeaderWords32(h: Header)
    ensures var w := Words32([h.kind, h.pid, h.tgid, h.ppid, h.uid, h.gid]);
            && Read32(w[0..4]) == h.kind && Read32(w[4..8]) == h.pid && Read32(w[8..12]) == h.tgid
            && Read32(w[12..16]) == h.ppid && Read32(w[16..20]) == h.uid && Read32(w[20..24]) == h.gid
  {
    var ws := [h.kind, h.pid, h.tgid, h.ppid, h.uid, h.gid];
    Word32At(ws, 0); Word32At(ws, 1); Word32At(ws, 2); Word32At(ws, 3); Word32At(ws, 4); Word32At(ws, 5);
    Read32Of(h.kind); Read32Of(h.pid); Read32Of(h.tgid); Read32Of(h.ppid); Read32Of(h.uid); Read32Of(h.gid);
  }

  lemma HeaderWords64(h: Header)
    ensures var w := Words64([h.timestamp, h.cgroup, h.start, h.parentStart]);
            && Read64(w[0..8]) == h.timestamp && Read64(w[8..16]) == h.cgroup
            && Read64(w[16..24]) == h.start && Read64(w[24..32]) == h.parentStart
  {
    var ws := [h.timestamp, h.cgroup, h.start, h.parentStart];
    Word64At(ws, 0); Word64At(ws, 1); Word64At(ws, 2); Word64At(ws, 3);
    Read64Of(h.timestamp); Read64Of(h.cgroup); Read64Of(h.start); Read64Of(h.parentStart);
  }

  lemma HeaderInverts(h: Header, rest: seq<Byte>)
    ensures ReadHeader(EncodeHeader(h) + rest) == h
  {
    var a := Words32([h.kind, h.pid, h.tgid, h.ppid, h.uid, h.gid]);
    var c := Words64([h.timestamp, h.cgroup, h.start, h.parentStart]);
    var b := EncodeHeader(h) + rest;
    HeaderWords32(h);
    HeaderWords64(h);
    assert b[0..4] == a[0..4] && b[4..8] == a[4..8] && b[8..12] == a[8..12];
    assert b[12..16] == a[12..16] && b[16..20] == a[16..20] && b[20..24] == a[20..24];
    assert b[24..32] == c[0..8] && b[32..40] == c[8..16] && b[40..48] == c[16..24] && b[48..56] == c[24..32];
  }

  lemma ExecInverts(r: ExecRecord)
    requires r.Sized()
    ensures |EncodeExec(r)| == EXEC_LEN && ReadExec(EncodeExec(r)) == r
  {
    var h := EncodeHeader(r.hdr);
    var flags := [r.argvTruncated, r.argvReadFailed, r.filenameTruncated, r.pad];
    var b := EncodeExec(r);
    assert b == h + (r.comm + r.filename + LE(r.argvLen, 4) + flags + r.argv);
    HeaderInverts(r.hdr, r.comm + r.filename + LE(r.argvLen, 4) + flags + r.argv);
    assert b[56..72] == r.comm;
    assert b[72..584] == r.filename;
    assert b[584..588] == LE(r.argvLen, 4);
    Read32Of(r.argvLen);
    assert b[592..4688] == r.argv;
  }

  lemma ForkInverts(r: ForkRecord)
    requires r.Sized()
    ensures |EncodeFork(r)| == FORK_LEN && ReadFork(EncodeFork(r)) == r
  {
    HeaderInverts(r.hdr, r.comm);
    assert EncodeFork(r)[56..72] == r.comm;
  }

  lemma ExitInverts(r: ExitRecord)
    requires r.Sized()
    ensures |EncodeExit(r)| == EXIT_LEN && ReadExit(EncodeExit(r)) == r
  {
    var b := EncodeExit(r);
    assert b == EncodeHeader(r.hdr) + (r.comm + LE(r.exitCode, 4) + LE(r.pad, 4));
    HeaderInverts(r.hdr, r.comm + LE(r.exitCode, 4) + LE(r.pad, 4));
    assert b[56..72] == r.comm && b[72..76] == LE(r.exitCode, 4) && b[76..80] == LE(r.pad, 4);
    Read32Of(r.exitCode);
    Read32Of(r.pad);
  }

  // -------------------------------------------------------------- decode

  datatype Decoded =
    | Ok(event: Event)
    | TooShort(got: nat)
    | WrongSize(kind: Kind, got: nat, want: nat)
    | UnknownType(code: Uint32)

  /** The event of a header; GUIDs and parent details are left for enrichment. */
  function FromHeader(kind: Kind, h: Header, comm: seq<Byte>): Event {
    Event(kind, h.timestamp,
          Process(None, h.tgid, h.pid, h.uid, h.gid, h.cgroup, h.start, CString(comm), [], [], false, false, false),
          Parent(None, h.ppid, h.parentStart, [], [], false, false), None)
  }

  function ExecEvent(r: ExecRecord): Event
    requires r.Sized()
  {
    var ev := FromHeader(KindExec, r.hdr, r.comm);
    var n := if r.argvLen < ARGV_LEN then r.argvLen else ARGV_LEN;
    ev.(process := ev.process.(image := CString(r.filename), argv := ArgvOf(r.argv[..n]),
                               filenameTruncated := r.filenameTruncated != 0,
                               argvTruncated := r.argvTruncated != 0,
                               argvReadFailed := r.argvReadFailed != 0))
  }

  function ForkEvent(r: ForkRecord): Event {
    FromHeader(KindFork, r.hdr, r.comm)
  }

  /** ExitFromRaw: the wait(2) encoding. */
  function ExitFromRaw(raw: Uint32): ExitStatus {
    ExitStatus(raw / 256 % 256, raw % 128, raw)
  }

  function ExitEvent(r: ExitRecord): Event {
    FromHeader(KindExit, r.hdr, r.comm).(exit := Some(ExitFromRaw(r.exitCode)))
  }

  function Decode(raw: seq<Byte>): Decoded {
    if |raw| < 4 then TooShort(|raw|)
    else
      var t := Read32(raw[..4]);
      if t == EVENT_EXEC then
        if |raw| != EXEC_LEN then WrongSize(KindExec, |raw|, EXEC_LEN) else Ok(ExecEvent(ReadExec(raw)))
      else if t == EVENT_FORK then
        if |raw| != FORK_LEN then WrongSize(KindFork, |raw|, FORK_LEN) else Ok(ForkEvent(ReadFork(raw)))
      else if t == EVENT_EXIT then
        if |raw| != EXIT_LEN then WrongSize(KindExit, |raw|, EXIT_LEN) else Ok(ExitEvent(ReadExit(raw)))
      else UnknownType(t)
  }

  lemma KindFirst(h: Header, rest: seq<Byte>)
    ensures Read32((EncodeHeader(h) + rest)[..4]) == h.kind
  {
    HeaderInverts(h, rest);
    assert (EncodeHeader(h) + rest)[0..4] == (EncodeHeader(h) + rest)[..4];
  }

  lemma DecodeExec(r: ExecRecord)
    requires r.Sized() && r.hdr.kind == EVENT_EXEC
    ensures Decode(EncodeExec(r)) == Ok(ExecEvent(r))
  {
    var rest := r.comm + r.filename + LE(r.argvLen, 4)
                + [r.argvTruncated, r.argvReadFailed, r.filenameTruncated, r.pad] + r.argv;
    assert EncodeExec(r) == EncodeHeader(r.hdr) + rest;
    KindFirst(r.hdr, rest);
    ExecInverts(r);
  }

  lemma DecodeFork(r: ForkRecord)
    requires r.Sized() && r.hdr.kind == EVENT_FORK
    ensures Decode(EncodeFork(r)) == Ok(ForkEvent(r))
  {
    KindFirst(r.hdr, r.comm);
    ForkInverts(r);
  }

  lemma DecodeExit(r: ExitRecord)
    requires r.Sized() && r.hdr.kind == EVENT_EXIT
    ensures Decode(EncodeExit(r)) == Ok(ExitEvent(r))
  {
    var rest := r.comm + LE(r.exitCode, 4) + LE(r.pad, 4);
    assert EncodeExit(r) == EncodeHeader(r.hdr) + rest;
    KindFirst(r.hdr, rest);
    ExitInverts(r);
  }

  lemma ExecOnto(b: seq<Byte>)
    requires |b| == EXEC_LEN
    ensures EncodeExec(ReadExec(b)) == b
  {
    HeaderOnto(b);
    LEInverse(b[584..588]);
    assert b[588..592] == [b[588], b[589], b[590], b[591]];
    assert b == b[..56] + b[56..72] + b[72..584] + b[584..588] + b[588..592] + b[592..4688];
  }

  lemma ForkOnto(b: seq<Byte>)
    requires |b| == FORK_LEN
    ensures EncodeFork(ReadFork(b)) == b
  {
    HeaderOnto(b);
    assert b == b[..56] + b[56..72];
  }

  lemma ExitOnto(b: seq<Byte>)
    requires |b| == EXIT_LEN
    ensures EncodeExit(ReadExit(b)) == b
  {
    HeaderOnto(b);
    LEInverse(b[72..76]);
    LEInverse(b[76..80]);
    assert b == b[..56] + b[56..72] + b[72..76] + b[76..80];
  }

  lemma SliceSlice(b: seq<Byte>, k: nat, lo: nat, hi: nat)
    requires lo <= hi && k + hi <= |b|
    ensures b[k..][lo..hi] == b[k + lo..k + hi]
  {
  }

  lemma {:induction false} WordsOnto32(ws: seq<Uint32>, b: seq<Byte>)
    requires |b| == 4 * |ws|
    requires forall i :: 0 <= i < |ws| ==> LE(ws[i], 4) == b[4 * i..4 * i + 4]
    ensures Words32(ws) == b
  {
    if ws != [] {
      forall i | 0 <= i < |ws[1..]| ensures LE(ws[1..][i], 4) == b[4..][4 * i..4 * i + 4] {
        assert ws[1..][i] == ws[i + 1];
        assert LE(ws[i + 1], 4) == b[4 * (i + 1)..4 * (i + 1) + 4];
        SliceSlice(b, 4, 4 * i, 4 * i + 4);
      }
      WordsOnto32(ws[1..], b[4..]);
      assert LE(ws[0], 4) == b[4 * 0..4 * 0 + 4];
      assert b == b[0..4] + b[4..];
    }
  }

  lemma {:induction false} WordsOnto64(ws: seq<Uint64>, b: seq<Byte>)
    requires |b| == 8 * |ws|
    requires forall i :: 0 <= i < |ws| ==> LE(ws[i], 8) == b[8 * i..8 * i + 8]
    ensures Words64(ws) == b
  {
    if ws != [] {
      forall i | 0 <= i < |ws[1..]| ensures LE(ws[1..][i], 8) == b[8..][8 * i..8 * i + 8] {
        assert ws[1..][i] == ws[i + 1];
        assert LE(ws[i + 1], 8) == b[8 * (i + 1)..8 * (i + 1) + 8];
        SliceSlice(b, 8, 8 * i, 8 * i + 8);
      }
      WordsOnto64(ws[1..], b[8..]);
      assert LE(ws[0], 8) == b[8 * 0..8 * 0 + 8];
      assert b == b[0..8] + b[8..];
    }
  }

  /** Reading n words and writing them back. */
  lemma ReadBack32(ws: seq<Uint32>, b: seq<Byte>)
    requires |b| == 4 * |ws|
    requires forall i :: 0 <= i < |ws| ==> ws[i] == Read32(b[4 * i..4 * i + 4])
    ensures Words32(ws) == b
  {
    forall i | 0 <= i < |ws| ensures LE(ws[i], 4) == b[4 * i..4 * i + 4] { LEInverse(b[4 * i..4 * i + 4]); }
    WordsOnto32(ws, b);
  }

  lemma ReadBack64(ws: seq<Uint64>, b: seq<Byte>)
    requires |b| == 8 * |ws|
    requires forall i :: 0 <= i < |ws| ==> ws[i] == Read64(b[8 * i..8 * i + 8])
    ensures Words64(ws) == b
  {
    forall i | 0 <= i < |ws| ensures LE(ws[i], 8) == b[8 * i..8 * i + 8] { LEInverse(b[8 * i..8 * i + 8]); }
    WordsOnto64(ws, b);
  }

  lemma HeaderOnto(b: seq<Byte>)
    requires |b| >= HEADER_LEN
    ensures EncodeHeader(ReadHeader(b)) == b[..HEADER_LEN]
  {
    var h := ReadHeader(b);
    var lo, hi := b[..24], b[24..56];
    assert lo[0..4] == b[0..4] && lo[4..8] == b[4..8] && lo[8..12] == b[8..12];
    assert lo[12..16] == b[12..16] && lo[16..20] == b[16..20] && lo[20..24] == b[20..24];
    ReadBack32([h.kind, h.pid, h.tgid, h.ppid, h.uid, h.gid], lo);
    assert hi[0..8] == b[24..32] && hi[8..16] == b[32..40] && hi[16..24] == b[40..48] && hi[24..32] == b[48..56];
    ReadBack64([h.timestamp, h.cgroup, h.start, h.parentStart], hi);
    assert b[..56] == lo + hi;
  }

  /** decode succeeds on exactly the strings whose type is known and whose length is that type's. */
  lemma DecodeSucceeds(raw: seq<Byte>)
    ensures Decode(raw).Ok? <==>
              |raw| >= 4 && var t := Read32(raw[..4]);
              (t == 1 && |raw| == 4688) || (t == 2 && |raw| == 72) || (t == 3 && |raw| == 80)
    ensures Decode(raw).Ok? ==>
              match Decode(raw).event.kind
              case KindExec => |raw| == EXEC_LEN && raw == EncodeExec(ReadExec(raw))
              case KindFork => |raw| == FORK_LEN && raw == EncodeFork(ReadFork(raw))
              case KindExit => |raw| == EXIT_LEN && raw == EncodeExit(ReadExit(raw))
  {
    if |raw| == EXEC_LEN { ExecOnto(raw); }
    if |raw| == FORK_LEN { ForkOnto(raw); }
    if |raw| == EXIT_LEN { ExitOnto(raw); }
  }

  /** Which error decode reports: too short, a known type of the wrong size, or an unknown type. */
  lemma DecodeFails(raw: seq<Byte>)
    ensures Decode(raw).TooShort? <==> |raw| < 4
    ensures Decode(raw).WrongSize? <==>
              |raw| >= 4 && var t := Read32(raw[..4]);
              (t == 1 && |raw| != 4688) || (t == 2 && |raw| != 72) || (t == 3 && |raw| != 80)
    ensures Decode(raw).UnknownType? <==>
              |raw| >= 4 && var t := Read32(raw[..4]); t != 1 && t != 2 && t != 3
  {
  }

  /** Where the header fields are in a record, by their offsets in the C structure. */
  lemma DecodeOffsets(raw: seq<Byte>)
    requires Decode(raw).Ok?
    ensures |raw| >= 72
    ensures var ev := Decode(raw).event;
            var p, q := ev.process, ev.parent;
            && p.tid == Read32(raw[4..8]) && p.pid == Read32(raw[8..12]) && q.pid == Read32(raw[12..16])
            && p.uid == Read32(raw[16..20]) && p.gid == Read32(raw[20..24])
            && ev.timestamp == Read64(raw[24..32]) && p.cgroup == Read64(raw[32..40])
            && p.start == Read64(raw[40..48]) && q.start == Read64(raw[48..56]) && p.comm == CString(raw[56..72])
            && (ev.kind.KindExit? <==> ev.exit.Some?)
            && (ev.kind.KindExit? ==> |raw| == 80 && ev.exit.value.raw == Read32(raw[72..76]))
  {
  }

  function ArgvSeen(r: ExecRecord): seq<Byte>
    requires r.Sized()
  {
    r.argv[..if r.argvLen < ARGV_LEN then r.argvLen else ARGV_LEN]
  }

  /** The same header and flags; comm and filename agree up to the first NUL, argv up to argv_len. */
  predicate Alike(a: ExecRecord, b: ExecRecord)
    requires a.Sized() && b.Sized()
  {
    && a.(comm := b.comm, filename := b.filename, argv := b.argv, pad := b.pad) == b
    && CString(a.comm) == CString(b.comm) && CString(a.filename) == CString(b.filename) && ArgvSeen(a) == ArgvSeen(b)
  }

  lemma EventIgnores(a: ExecRecord, b: ExecRecord)
    requires a.Sized() && b.Sized() && Alike(a, b)
    ensures ExecEvent(a) == ExecEvent(b)
  {
  }

  /** Bytes past argv_len, and past the first NUL of comm and filename, do not matter. */
  lemma DecodeIgnores(a: ExecRecord, b: ExecRecord)
    requires a.Sized() && b.Sized() && a.hdr.kind == EVENT_EXEC && Alike(a, b)
    ensures Decode(EncodeExec(a)) == Decode(EncodeExec(b))
  {
    DecodeExec(a);
    DecodeExec(b);
    EventIgnores(a, b);
  }

  lemma DecodeIgnoresForkComm(a: ForkRecord, comm: seq<Byte>)
    requires a.Sized() && |comm| == COMM_LEN && a.hdr.kind == EVENT_FORK && CString(a.comm) == CString(comm)
    ensures Decode(EncodeFork(a)) == Decode(EncodeFork(a.(comm := comm)))
  {
    DecodeFork(a);
    DecodeFork(a.(comm := comm));
  }

  lemma DecodeIgnoresExitComm(a: ExitRecord, comm: seq<Byte>, pad: Uint32)
    requires a.Sized() && |comm| == COMM_LEN && a.hdr.kind == EVENT_EXIT && CString(a.comm) == CString(comm)
    ensures Decode(EncodeExit(a)) == Decode(EncodeExit(a.(comm := comm, pad := pad)))
  {
    DecodeExit(a);
    DecodeExit(a.(comm := comm, pad := pad));
  }
}
