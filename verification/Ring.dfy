/**
 * From hook to channel: the ring buffer, its per-CPU drop counters, and the Events reader.
 * A hook that is in scope either reserves a slot or counts a drop; the reader takes committed
 * slots in order, decodes, and sends or, once cancelled, may give up the one it holds.
 * Nothing here depends on what decode makes of a record; Delivery puts the real one in.
 */
module Ring {
  import opened Types
  import opened Events

  /** decode: None is an error. */
  type Decoder = seq<Byte> -> Option<Event>

  /** A reserved record; the reader waits at the first one that is not yet submitted. */
  datatype Slot = Slot(raw: seq<Byte>, submitted: bool)

  datatype Reader = Reading | Holding(event: Event) | Stopped

  /** fired, reserved and abandoned are history. */
  datatype State = State(
    ring: seq<Slot>, drops: seq<nat>, reader: Reader, sent: seq<Event>, decodeErrors: nat, cancelled: bool,
    fired: nat, reserved: seq<seq<Byte>>, abandoned: seq<Event>)

  datatype Step =
    | Reserve(raw: seq<Byte>)
    | Drop(cpu: nat)
    | Submit(slot: nat)
    | Read
    | Send
    | Cancel
    | Abandon
    | Stop

  predicate Enabled(s: State, st: Step) {
    match st
    case Reserve(_) => true
    case Drop(cpu) => cpu < |s.drops|
    case Submit(i) => i < |s.ring| && !s.ring[i].submitted
    case Read => s.reader.Reading? && s.ring != [] && s.ring[0].submitted
    case Send => s.reader.Holding?
    case Cancel => true
    case Abandon => s.reader.Holding? && s.cancelled
    case Stop => s.reader.Reading?
  }

  function Take(s: State, d: Decoder): State
    requires Enabled(s, Read)
  {
    var ev := d(s.ring[0].raw);
    var s' := s.(ring := s.ring[1..]);
    if ev.Some? then s'.(reader := Holding(ev.value)) else s'.(decodeErrors := s.decodeErrors + 1)
  }

  function Apply(s: State, st: Step, d: Decoder): State
    requires Enabled(s, st)
  {
    match st
    case Reserve(raw) => s.(fired := s.fired + 1, ring := s.ring + [Slot(raw, false)], reserved := s.reserved + [raw])
    case Drop(cpu) => s.(fired := s.fired + 1, drops := s.drops[cpu := s.drops[cpu] + 1])
    case Submit(i) => s.(ring := s.ring[i := s.ring[i].(submitted := true)])
    case Read => Take(s, d)
    case Send => s.(reader := Reading, sent := s.sent + [s.reader.event])
    case Cancel => s.(cancelled := true)
    case Abandon => s.(reader := Stopped, abandoned := s.abandoned + [s.reader.event])
    case Stop => s.(reader := Stopped)
  }

  function Start(cpus: nat): State {
    State([], seq(cpus, _ => 0), Reading, [], 0, false, 0, [], [])
  }

  /** A run: each state follows from the one before by an enabled step. */
  ghost predicate Run(d: Decoder, cpus: nat, states: seq<State>, steps: seq<Step>) {
    && |states| == |steps| + 1 && states[0] == Start(cpus)
    && forall i :: 0 <= i < |steps| ==> Enabled(states[i], steps[i]) && states[i + 1] == Apply(states[i], steps[i], d)
  }

  function Sum(ns: seq<nat>): nat {
    if ns == [] then 0 else Sum(ns[..|ns| - 1]) + ns[|ns| - 1]
  }

  /** Stats: the drop counters added up in 64-bit arithmetic. */
  method TotalDrops(perCPU: seq<Uint64>) returns (total: Uint64)
    ensures total == Sum(perCPU) % 0x1_0000_0000_0000_0000
  {
    total := 0;
    for i := 0 to |perCPU|
      invariant total == Sum(perCPU[..i]) % 0x1_0000_0000_0000_0000
    {
      assert perCPU[..i + 1][..i] == perCPU[..i];
      total := (total + perCPU[i]) % 0x1_0000_0000_0000_0000;
    }
    assert perCPU[..|perCPU|] == perCPU;
  }

  /** The events a row of records decodes to, in order; undecodable ones are skipped. */
  function Decodable(raws: seq<seq<Byte>>, d: Decoder): seq<Event> {
    if raws == [] then []
    else
      var rest := Decodable(raws[..|raws| - 1], d);
      var ev := d(raws[|raws| - 1]);
      if ev.Some? then rest + [ev.value] else rest
  }

  function Raws(ring: seq<Slot>): (r: seq<seq<Byte>>)
    ensures |r| == |ring| && forall i :: 0 <= i < |ring| ==> r[i] == ring[i].raw
  {
    seq(|ring|, i requires 0 <= i < |ring| => ring[i].raw)
  }

  function Held(r: Reader): seq<Event> {
    if r.Holding? then [r.event] else []
  }

  /** Every firing is somewhere. */
  ghost predicate Counted(s: State) {
    && s.fired == |s.ring| + |Held(s.reader)| + |s.sent| + Sum(s.drops) + s.decodeErrors + |s.abandoned|
    && s.fired == |s.reserved| + Sum(s.drops)
    && |s.abandoned| <= 1
    && (s.abandoned != [] ==> s.reader.Stopped? && s.cancelled)
  }

  /** The ring holds the last records, and what came out is what went in before them, in order. */
  ghost predicate InOrder(s: State, d: Decoder) {
    && |s.ring| <= |s.reserved|
    && Raws(s.ring) == s.reserved[|s.reserved| - |s.ring|..]
    && Decodable(s.reserved[..|s.reserved| - |s.ring|], d) == s.sent + s.abandoned + Held(s.reader)
  }

  ghost predicate Accounted(s: State, d: Decoder) {
    Counted(s) && InOrder(s, d)
  }

  lemma {:induction false} SumUpdate(ns: seq<nat>, i: nat)
    requires i < |ns|
    ensures Sum(ns[i := ns[i] + 1]) == Sum(ns) + 1
  {
    var n := |ns| - 1;
    var ms := ns[i := ns[i] + 1];
    if i < n {
      SumUpdate(ns[..n], i);
      assert ms[..n] == ns[..n][i := ns[..n][i] + 1];
    } else {
      assert ms[..n] == ns[..n];
    }
  }

  lemma StepCounted(s: State, st: Step, d: Decoder)
    requires Counted(s) && Enabled(s, st)
    ensures Counted(Apply(s, st, d))
  {
    if st.Drop? { SumUpdate(s.drops, st.cpu); }
  }

  lemma TakeInOrder(s: State, d: Decoder)
    requires InOrder(s, d) && s.abandoned == [] && Enabled(s, Read)
    ensures InOrder(Take(s, d), d)
  {
    var s' := Take(s, d);
    var k := |s.reserved| - |s.ring|;
    assert s.reserved[..k + 1][..k] == s.reserved[..k];
    assert Raws(s.ring)[0] == s.reserved[k];
    assert Raws(s'.ring) == Raws(s.ring)[1..] == s.reserved[k + 1..];
  }

  lemma ReserveInOrder(s: State, raw: seq<Byte>, d: Decoder)
    requires InOrder(s, d)
    ensures InOrder(Apply(s, Reserve(raw), d), d)
  {
    var s' := Apply(s, Reserve(raw), d);
    var k := |s.reserved| - |s.ring|;
    assert s'.reserved[..k] == s.reserved[..k];
    assert s'.reserved[k..] == s.reserved[k..] + [raw];
    assert Raws(s'.ring) == Raws(s.ring) + [raw];
  }

  lemma SubmitInOrder(s: State, i: nat, d: Decoder)
    requires InOrder(s, d) && Enabled(s, Submit(i))
    ensures InOrder(Apply(s, Submit(i), d), d)
  {
    assert Raws(Apply(s, Submit(i), d).ring) == Raws(s.ring);
  }

  lemma HeldInOrder(s: State, st: Step, d: Decoder)
    requires InOrder(s, d) && s.abandoned == [] && Enabled(s, st) && (st.Send? || st.Abandon?)
    ensures InOrder(Apply(s, st, d), d)
  {
  }

  lemma StepInOrder(s: State, st: Step, d: Decoder)
    requires InOrder(s, d) && Counted(s) && Enabled(s, st)
    ensures InOrder(Apply(s, st, d), d)
  {
    match st
    case Reserve(raw) => ReserveInOrder(s, raw, d);
    case Submit(i) => SubmitInOrder(s, i, d);
    case Read => TakeInOrder(s, d);
    case Send => HeldInOrder(s, st, d);
    case Abandon => HeldInOrder(s, st, d);
    case _ =>
  }

  lemma {:induction false} SumZeros(n: nat)
    ensures Sum(seq(n, _ => 0)) == 0
  {
    if n > 0 {
      SumZeros(n - 1);
      assert seq(n, _ => 0)[..n - 1] == seq(n - 1, _ => 0);
    }
  }

  lemma StartAccounted(cpus: nat, d: Decoder)
    ensures Accounted(Start(cpus), d)
  {
    SumZeros(cpus);
  }

  /**
   * Accounting over every run, whatever decode does: each in-scope hook firing is a record
   * still in the ring, the one the reader holds, an event sent, a counted drop, a decode error,
   * or the at most one record abandoned at cancellation; and the events come out in
   * reservation order, nothing skipped but what did not decode.
   */
  lemma {:induction false} RunAccounted(d: Decoder, cpus: nat, states: seq<State>, steps: seq<Step>, k: nat)
    requires Run(d, cpus, states, steps) && k < |states|
    ensures Accounted(states[k], d)
  {
    if k == 0 {
      StartAccounted(cpus, d);
    } else {
      RunAccounted(d, cpus, states, steps, k - 1);
      StepCounted(states[k - 1], steps[k - 1], d);
      StepInOrder(states[k - 1], steps[k - 1], d);
      assert states[k - 1 + 1] == Apply(states[k - 1], steps[k - 1], d);
    }
  }

  /** Every record decodes to the event at its place. */
  ghost predicate AllDecode(raws: seq<seq<Byte>>, evs: seq<Event>, d: Decoder) {
    |evs| == |raws| && forall i :: 0 <= i < |raws| ==> d(raws[i]) == Some(evs[i])
  }

  lemma {:induction false} DecodableAll(raws: seq<seq<Byte>>, evs: seq<Event>, d: Decoder)
    requires AllDecode(raws, evs, d)
    ensures Decodable(raws, d) == evs
  {
    if raws != [] {
      var n := |raws| - 1;
      DecodableAll(raws[..n], evs[..n], d);
      assert evs == evs[..n] + [evs[n]];
    }
  }

  /** If every record decodes, no decode error is counted and the events come out in order. */
  lemma NoneLost(s: State, evs: seq<Event>, d: Decoder)
    requires Accounted(s, d) && AllDecode(s.reserved, evs, d)
    ensures s.decodeErrors == 0 && s.sent + s.abandoned + Held(s.reader) == evs[..|evs| - |s.ring|]
  {
    var taken := |s.reserved| - |s.ring|;
    DecodableAll(s.reserved[..taken], evs[..taken], d);
    assert |s.sent + s.abandoned + Held(s.reader)| == taken;
  }
}
