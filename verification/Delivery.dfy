/** From hook firing to event channel: the hooks, the ring and decode together. */
module Delivery {
  import opened Types
  import opened Events
  import opened Records
  import opened Hooks
  import Ring

  /** The sensor's decoder. */
  const DECODER: Ring.Decoder := raw => if Decode(raw).Ok? then Some(Decode(raw).event) else None

  /** The records are what these firings submit, one for one. */
  ghost predicate AllSubmit(fs: seq<Firing>, raws: seq<seq<Byte>>) {
    |fs| == |raws| && forall i :: 0 <= i < |fs| ==> Submits(fs[i], raws[i])
  }

  function Tellings(fs: seq<Firing>): (evs: seq<Event>)
    ensures |evs| == |fs| && forall i :: 0 <= i < |fs| ==> evs[i] == Telling(fs[i])
  {
    seq(|fs|, i requires 0 <= i < |fs| => Telling(fs[i]))
  }

  lemma SubmittedDecodes(f: Firing, raw: seq<Byte>)
    requires Submits(f, raw)
    ensures DECODER(raw) == Some(Telling(f))
  {
    FiringDecodes(f, raw);
  }

  /**
   * In every run whose records are those the hooks submit, nothing fails to decode, and the
   * events sent, then the one abandoned or held, are exactly what the firings told, in order,
   * for all firings but those dropped and those still in the ring.
   */
  lemma FiringsDelivered(cpus: nat, states: seq<Ring.State>, steps: seq<Ring.Step>, k: nat, fs: seq<Firing>)
    requires Ring.Run(DECODER, cpus, states, steps) && k < |states| && AllSubmit(fs, states[k].reserved)
    ensures var s := states[k];
            && s.decodeErrors == 0 && s.fired == |fs| + Ring.Sum(s.drops) && |s.ring| <= |fs|
            && s.sent + s.abandoned + Ring.Held(s.reader) == Tellings(fs)[..|fs| - |s.ring|]
  {
    var raws := states[k].reserved;
    forall i | 0 <= i < |fs| ensures DECODER(raws[i]) == Some(Tellings(fs)[i]) {
      SubmittedDecodes(fs[i], raws[i]);
    }
    Ring.RunAccounted(DECODER, cpus, states, steps, k);
    Ring.NoneLost(states[k], Tellings(fs), DECODER);
  }
}
