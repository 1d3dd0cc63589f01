/** Process identity: /proc/<pid>/stat, clock ticks, and the bytes a GUID is hashed from. */
module Identity {
  import opened Types
  import opened Events
  import opened Bytes

  const SPACE: Byte := 32
  const NEWLINE: Byte := 10
  const CLOSE: Byte := 41
  const OPEN: Byte := 40
  const ZERO: Byte := 48

  // ------------------------------------------------------------ decimals

  function Dec(n: nat): (s: Text)
    ensures s != []
  {
    (if n < 10 then [] else Dec(n / 10)) + [ZERO + n % 10]
  }

  predicate Digits(s: Text) {
    forall i :: 0 <= i < |s| ==> ZERO <= s[i] <= ZERO + 9
  }

  function Value(s: Text): nat
    requires Digits(s)
  {
    if s == [] then 0 else 10 * Value(s[..|s| - 1]) + (s[|s| - 1] - ZERO)
  }

  /** strconv.ParseUint in base 10 with an upper bound. */
  function ParseUint(s: Text, limit: nat): Option<nat> {
    if s == [] || !Digits(s) || Value(s) >= limit then None else Some(Value(s))
  }

  /** One more digit. */
  lemma ValueAppend(s: Text, d: nat)
    requires Digits(s) && d < 10
    ensures Digits(s + [ZERO + d]) && Value(s + [ZERO + d]) == 10 * Value(s) + d
  {
    var t := s + [ZERO + d];
    assert t[..|t| - 1] == s;
  }

  lemma LastDigit(n: nat) returns (tens: nat, ones: nat)
    ensures n == 10 * tens + ones && ones < 10 && (n < 10 <==> tens == 0)
    ensures Dec(n) == (if n < 10 then [] else Dec(tens)) + [ZERO + ones]
  {
    tens, ones := n / 10, n % 10;
  }

  lemma {:induction false} DecDigits(n: nat)
    ensures Digits(Dec(n)) && Value(Dec(n)) == n
  {
    var tens, ones := LastDigit(n);
    if n >= 10 { DecDigits(tens); }
    ValueAppend(if n < 10 then [] else Dec(tens), ones);
  }

  lemma ParseDec(n: nat, limit: nat)
    requires n < limit
    ensures ParseUint(Dec(n), limit) == Some(n)
  {
    DecDigits(n);
  }

  // -------------------------------------------------------------- fields

  predicate IsSpace(c: Byte) {
    c == SPACE || 9 <= c <= 13
  }

  /** Length of the leading run without white space. */
  function TokenLen(b: seq<Byte>): (n: nat)
    ensures n <= |b|
    ensures forall i :: 0 <= i < n ==> !IsSpace(b[i])
    ensures n < |b| ==> IsSpace(b[n])
  {
    if b == [] || IsSpace(b[0]) then 0 else 1 + TokenLen(b[1..])
  }

  /** strings.Fields: the maximal runs without white space. */
  function Fields(b: seq<Byte>): seq<Text>
    decreases |b|
  {
    if b == [] then []
    else if IsSpace(b[0]) then Fields(b[1..])
    else [b[..TokenLen(b)]] + Fields(b[TokenLen(b)..])
  }

  ghost predicate Token(s: Text) {
    s != [] && forall i :: 0 <= i < |s| ==> !IsSpace(s[i]) && s[i] != CLOSE
  }

  ghost predicate Tokens(ts: seq<Text>) {
    forall i :: 0 <= i < |ts| ==> Token(ts[i])
  }

  /** Each token after one space, then a newline. */
  function Spaced(ts: seq<Text>): seq<Byte> {
    if ts == [] then [NEWLINE] else [SPACE] + ts[0] + Spaced(ts[1..])
  }

  lemma SpacedStart(ts: seq<Text>)
    ensures Spaced(ts) != [] && IsSpace(Spaced(ts)[0])
  {
  }

  lemma TokenRun(t: Text, rest: seq<Byte>)
    requires Token(t) && rest != [] && IsSpace(rest[0])
    ensures TokenLen(t + rest) == |t|
  {
    var b := t + rest;
    var n := TokenLen(b);
    assert b[|t|] == rest[0];
    assert forall i :: 0 <= i < |t| ==> b[i] == t[i];
  }

  lemma {:induction false} FieldsSpace(c: Byte, b: seq<Byte>)
    requires c == 32 || c == 9 || c == 10 || c == 11 || c == 12 || c == 13
    ensures Fields([c] + b) == Fields(b)
  {
    assert ([c] + b)[1..] == b;
  }

  lemma {:induction false} FieldsToken(t: Text, rest: seq<Byte>)
    requires Token(t) && rest != [] && IsSpace(rest[0])
    ensures Fields(t + rest) == [t] + Fields(rest)
  {
    TokenRun(t, rest);
    assert (t + rest)[..|t|] == t && (t + rest)[|t|..] == rest;
    assert (t + rest)[0] == t[0];
  }

  lemma {:induction false} FieldsOf(ts: seq<Text>)
    requires Tokens(ts)
    ensures Fields(Spaced(ts)) == ts
  {
    if ts == [] {
      FieldsSpace(NEWLINE, []);
      assert [NEWLINE] + [] == [NEWLINE];
    } else {
      var rest := Spaced(ts[1..]);
      FieldsOf(ts[1..]);
      SpacedStart(ts[1..]);
      assert Spaced(ts) == [SPACE] + (ts[0] + rest);
      FieldsSpace(SPACE, ts[0] + rest);
      FieldsToken(ts[0], rest);
    }
  }

  // ---------------------------------------------------------- parseStat

  /** bytes.LastIndexByte: position of the last c, -1 if none. */
  function LastIndex(b: seq<Byte>, c: Byte): (i: int)
    ensures -1 <= i < |b|
    ensures i >= 0 ==> b[i] == c
    ensures forall k :: i < k < |b| ==> b[k] != c
  {
    if b == [] then -1
    else if b[|b| - 1] == c then |b| - 1
    else LastIndex(b[..|b| - 1], c)
  }

  datatype Stat = NoParen | FewFields(n: nat) | BadPpid | BadStart | Parsed(ppid: Uint32, ticks: Uint64)

  function ParseStat(b: seq<Byte>): Stat {
    var i := LastIndex(b, CLOSE);
    if i < 0 then NoParen
    else
      var f := Fields(b[i + 1..]);
      if |f| < 20 then FewFields(|f|)
      else
        var pp := ParseUint(f[1], 0x1_0000_0000);
        var st := ParseUint(f[19], 0x1_0000_0000_0000_0000);
        if pp.None? then BadPpid else if st.None? then BadStart else Parsed(pp.value, st.value)
  }

  /** The line the kernel writes: pid, (comm), then the fields from the state on. */
  function StatLine(pid: Uint32, comm: Text, fields: seq<Text>): seq<Byte> {
    Dec(pid) + [SPACE, OPEN] + comm + [CLOSE] + Spaced(fields)
  }

  lemma {:induction false} NoClose(ts: seq<Text>)
    requires Tokens(ts)
    ensures forall k :: 0 <= k < |Spaced(ts)| ==> Spaced(ts)[k] != CLOSE
  {
    if ts != [] { NoClose(ts[1..]); }
  }

  /** Whatever comm holds, spaces and parentheses included, the fields after it are found. */
  lemma StatFields(pid: Uint32, comm: Text, fields: seq<Text>)
    requires Tokens(fields)
    ensures var b := StatLine(pid, comm, fields);
            var i := LastIndex(b, CLOSE);
            i >= 0 && b[i + 1..] == Spaced(fields) && Fields(b[i + 1..]) == fields
  {
    var head := Dec(pid) + [SPACE, OPEN] + comm;
    var b := StatLine(pid, comm, fields);
    var i := LastIndex(b, CLOSE);
    assert b == head + [CLOSE] + Spaced(fields);
    assert b[|head|] == CLOSE;
    assert b[|head| + 1..] == Spaced(fields);
    NoClose(fields);
    assert forall k :: |head| < k < |b| ==> b[k] == Spaced(fields)[k - |head| - 1];
    assert i == |head|;
    FieldsOf(fields);
  }

  /** parseStat reads back parent and start time from every line the kernel can write. */
  lemma ParseStatLine(pid: Uint32, comm: Text, fields: seq<Text>, ppid: Uint32, ticks: Uint64)
    requires Tokens(fields) && |fields| >= 20 && fields[1] == Dec(ppid) && fields[19] == Dec(ticks)
    ensures ParseStat(StatLine(pid, comm, fields)) == Parsed(ppid, ticks)
  {
    StatFields(pid, comm, fields);
    ParseDec(ppid, 0x1_0000_0000);
    ParseDec(ticks, 0x1_0000_0000_0000_0000);
  }

  // ------------------------------------------------------------- identity

  /** ticks * nsPerTick in 64-bit arithmetic. */
  function TicksToNs(ticks: Uint64): Uint64 {
    ticks * NS_PER_TICK % 0x1_0000_0000_0000_0000
  }

  /** The bytes hashed into a GUID. */
  function Preimage(host: Text, boot: Text, tgid: Uint32, startNs: Uint64): seq<Byte> {
    host + [0] + boot + [0] + LE(tgid, 4) + LE(StartTicks(startNs), 8)
  }

  /** The last tick the kernel can write for a 64-bit start time. */
  const MAX_TICK: Uint64 := 0xFFFF_FFFF_FFFF_FFFF / 10_000_000

  /** The kernel's division by 10 ms: converting what it writes never overflows and keeps the tick. */
  lemma TicksAgree(startNs: Uint64)
    ensures StartTicks(startNs) == startNs / 10_000_000 <= MAX_TICK
    ensures forall t: Uint64 :: t <= MAX_TICK ==> TicksToNs(t) == t * 10_000_000
    ensures StartTicks(TicksToNs(startNs / 10_000_000)) == startNs / 10_000_000
  {
  }

  /** The hashed bytes: host, boot, and 4 and 8 bytes of process ID and tick, low byte first. */
  lemma PreimageBytes(host: Text, boot: Text, tgid: Uint32, startNs: Uint64)
    ensures var head := host + [0] + boot + [0];
            var b := Preimage(host, boot, tgid, startNs);
            && |b| == |head| + 12 && b[..|head|] == head
            && b[|head|..|head| + 4] == LE(tgid, 4) && b[|head| + 4..] == LE(startNs / 10_000_000, 8)
  {
  }

  /**
   * Kernel and /proc identities agree: for every start time and every comm, parsing the stat
   * line and converting its tick gives the GUID bytes of the kernel's own event.
   */
  lemma IdentitiesAgree(host: Text, boot: Text, tgid: Uint32, startNs: Uint64,
                        comm: Text, fields: seq<Text>, ppid: Uint32)
    requires Tokens(fields) && |fields| >= 20 && fields[1] == Dec(ppid) && fields[19] == Dec(startNs / 10_000_000)
    ensures var s := ParseStat(StatLine(tgid, comm, fields));
            && s.Parsed? && s.ppid == ppid && TicksToNs(s.ticks) == s.ticks * 10_000_000
            && Preimage(host, boot, tgid, TicksToNs(s.ticks)) == Preimage(host, boot, tgid, startNs)
            && GuidOf(tgid, TicksToNs(s.ticks)) == GuidOf(tgid, startNs)
  {
    ParseStatLine(tgid, comm, fields, ppid, startNs / 10_000_000);
    TicksAgree(startNs);
  }

  lemma LEInjective(a: nat, b: nat, k: nat)
    requires a < Limit(k) && b < Limit(k) && LE(a, k) == LE(b, k)
    ensures a == b
  {
    LERoundTrip(a, k);
    LERoundTrip(b, k);
  }

  /** The first NUL ends a NUL-free string, so it can be split off. */
  lemma SplitHost(h1: Text, r1: seq<Byte>, h2: Text, r2: seq<Byte>)
    requires NulFree(h1) && NulFree(h2) && h1 + [0] + r1 == h2 + [0] + r2
    ensures h1 == h2 && r1 == r2
  {
    CStringOf(h1, r1);
    CStringOf(h2, r2);
    var b := h1 + [0] + r1;
    assert b[|h1| + 1..] == r1;
    assert (h2 + [0] + r2)[|h2| + 1..] == r2;
  }

  lemma SplitTail(a1: seq<Byte>, t1: seq<Byte>, a2: seq<Byte>, t2: seq<Byte>)
    requires |t1| == |t2| && a1 + t1 == a2 + t2
    ensures a1 == a2 && t1 == t2
  {
    assert |a1| == |a2|;
    assert (a1 + t1)[..|a1|] == a1 && (a2 + t2)[..|a2|] == a2;
    assert (a1 + t1)[|a1|..] == t1 && (a2 + t2)[|a2|..] == t2;
  }

  /**
   * With NUL-free host IDs, two GUIDs are hashed from the same bytes exactly when host, boot,
   * process ID and start tick are all the same.
   */
  lemma PreimageInjective(h1: Text, b1: Text, p1: Uint32, s1: Uint64, h2: Text, b2: Text, p2: Uint32, s2: Uint64)
    requires NulFree(h1) && NulFree(h2)
    ensures Preimage(h1, b1, p1, s1) == Preimage(h2, b2, p2, s2) <==>
              h1 == h2 && b1 == b2 && GuidOf(p1, s1) == GuidOf(p2, s2)
  {
    if Preimage(h1, b1, p1, s1) == Preimage(h2, b2, p2, s2) {
      var t1, t2 := LE(p1, 4) + LE(StartTicks(s1), 8), LE(p2, 4) + LE(StartTicks(s2), 8);
      var r1, r2 := b1 + [0] + t1, b2 + [0] + t2;
      assert Preimage(h1, b1, p1, s1) == h1 + [0] + r1;
      assert Preimage(h2, b2, p2, s2) == h2 + [0] + r2;
      SplitHost(h1, r1, h2, r2);
      SplitTail(b1 + [0], t1, b2 + [0], t2);
      SplitTail(b1, [0], b2, [0]);
      SplitTail(LE(p1, 4), LE(StartTicks(s1), 8), LE(p2, 4), LE(StartTicks(s2), 8));
      Widths();
      LEInjective(p1, p2, 4);
      LEInjective(StartTicks(s1), StartTicks(s2), 8);
    }
  }

  /** Without that condition two hosts can share a preimage. */
  lemma NulInHostCollides()
    ensures Preimage([1, 0, 2], [3], 7, 0) == Preimage([1], [2, 0, 3], 7, 0)
  {
  }
}
