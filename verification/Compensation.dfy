/** Processors whose declared latency can be compensated, and racks of them: what leaves such a rack late
    is what a rack without any delay would have let through on time. */
module Compensation {
  import opened Frames
  import opened Processors

  function SilentFrames(channels: nat, n: nat): (frames: seq<Frame>)
    ensures |frames| == n
  {
    seq(n, _ => Silence(channels))
  }

  function SilentBuses(buses: nat, channels: nat, n: nat): (frames: seq<AuxFrame>)
    ensures |frames| == n
  {
    seq(n, _ => seq(buses, _ => Silence(channels)))
  }

  lemma MoreSilence(channels: nat, a: nat, b: nat)
    ensures SilentFrames(channels, a) + SilentFrames(channels, b) == SilentFrames(channels, a + b)
  {}

  // ------------------------------------------------------------------ the law

  /** The processor runs, and nothing leaves it within its declared latency. */
  ghost predicate HoldsBack<S>(p: Processor<S>, channels: nat, start: int, main: seq<Frame>, aux: seq<AuxFrame>) {
    var run := Run(p, start, main, aux);
    run.Some? && forall i :: 0 <= i < |run.value.1| && i < p.latency ==> run.value.1[i] == Silence(channels)
  }

  /** Entered earlier and fed silence up to `start + lead`, the processor does what it does when entered there. */
  ghost predicate SkipsSilence<S>(p: Processor<S>, channels: nat, buses: nat, start: int, lead: nat, main: seq<Frame>, aux: seq<AuxFrame>) {
    var early := Run(p, start, SilentFrames(channels, lead) + main, SilentBuses(buses, channels, lead) + aux);
    var late := Run(p, start + lead, main, aux);
    early.Some? && late.Some? && early.value.1 == SilentFrames(channels, lead) + late.value.1
  }

  /** The latency of the processor is a pure shift of what it does: it may look that far ahead, hold state and
      listen to its auxiliary buses, but leading silence means nothing to it. */
  ghost predicate Compensable<S(!new)>(p: Processor<S>, channels: nat, buses: nat) {
    && Streaming(p)
    && (forall start: int, main: seq<Frame>, aux: seq<AuxFrame> | |aux| == |main| :: HoldsBack(p, channels, start, main, aux))
    && (forall start: int, lead: nat, main: seq<Frame>, aux: seq<AuxFrame> | |aux| == |main| ::
          SkipsSilence(p, channels, buses, start, lead, main, aux))
  }

  lemma CompensableRuns<S(!new)>(p: Processor<S>, channels: nat, buses: nat)
    requires Compensable(p, channels, buses)
    ensures AlwaysRuns(p)
  {
    hide Streaming, SkipsSilence;
    forall start: int, main: seq<Frame>, aux: seq<AuxFrame> | |aux| == |main|
      ensures RunsOn(p, start, main, aux)
    {
      assert HoldsBack(p, channels, start, main, aux);
    }
  }

  ghost predicate CompensableRack<S(!new)>(slots: seq<Slot<S>>, channels: nat, buses: seq<nat>) {
    |buses| == |slots| && forall j :: 0 <= j < |slots| ==> Compensable(slots[j].processor, channels, buses[j])
  }

  // ------------------------------------------------------------------ a rack without delays

  function SlotLatencies<S>(slots: seq<Slot<S>>): nat {
    if |slots| == 0 then 0 else SlotLatencies(slots[..|slots| - 1]) + slots[|slots| - 1].processor.latency
  }

  lemma {:induction false} LatenciesGrow<S>(slots: seq<Slot<S>>, k: nat)
    requires k <= |slots|
    ensures SlotLatencies(slots[..k]) <= SlotLatencies(slots)
    ensures k > 0 ==> SlotLatencies(slots[..k]) == SlotLatencies(slots[..k - 1]) + slots[k - 1].processor.latency
    decreases |slots| - k
  {
    if k > 0 {
      assert slots[..k][..k - 1] == slots[..k - 1];
    }
    if k < |slots| {
      LatenciesGrow(slots, k + 1);
    } else {
      assert slots[..k] == slots;
    }
  }

  function Behind(out: seq<Frame>, latency: nat): seq<Frame> {
    if |out| < latency then [] else out[latency..]
  }

  /** What leaves the first `k` processors of a rack in a mixer without delays. Every processor begins with the first
      frame, and its output is taken early by its latency, so the last frames of the input are only looked ahead at. */
  ghost function Advanced<S>(slots: seq<Slot<S>>, k: nat, start: int, main: seq<Frame>, aux: seq<seq<AuxFrame>>): Option<seq<Frame>>
    requires k <= |slots| == |aux|
    decreases k
  {
    if k == 0 then Some(main) else
    var before := Advanced(slots, k - 1, start, main, aux);
    if before.None? || |before.value| > |aux[k - 1]| then None else
    var run := Run(slots[k - 1].processor, start, before.value, aux[k - 1][..|before.value|]);
    if run.None? then None else Some(Behind(run.value.1, slots[k - 1].processor.latency))
  }

  /** Only the processors of a rack matter here, not how late their inputs are. */
  lemma {:induction false} SameAdvanced<S>(a: seq<Slot<S>>, b: seq<Slot<S>>, k: nat, start: int, main: seq<Frame>, aux: seq<seq<AuxFrame>>)
    requires k <= |a| == |b| == |aux| && forall j :: 0 <= j < |a| ==> a[j].processor == b[j].processor
    ensures Advanced(a, k, start, main, aux) == Advanced(b, k, start, main, aux)
    decreases k
  {
    if k > 0 {
      SameAdvanced(a, b, k - 1, start, main, aux);
    }
  }

  /** The auxiliary input of a processor is silent for `delay` frames and then what it is without delays. */
  ghost predicate AuxArrives(aux: seq<AuxFrame>, late: seq<AuxFrame>, buses: nat, channels: nat, delay: nat, length: nat) {
    delay <= length && length - delay <= |aux| && late == SilentBuses(buses, channels, delay) + aux[..length - delay]
  }

  ghost predicate RackAuxArrives<S>(slots: seq<Slot<S>>, buses: seq<nat>, channels: nat, aux: seq<seq<AuxFrame>>, late: seq<seq<AuxFrame>>, length: nat) {
    && |slots| == |buses| == |aux| == |late|
    && forall j :: 0 <= j < |slots| ==> AuxArrives(aux[j], late[j], buses[j], channels, slots[j].inputDelay, length)
  }

  /** Every processor hears its input late by the delay of the rack and the latencies before it. */
  ghost predicate DelaysAccumulate<S>(slots: seq<Slot<S>>, delay: nat) {
    forall j :: 0 <= j < |slots| ==> slots[j].inputDelay == delay + SlotLatencies(slots[..j])
  }

  /** One processor: entered before the silence, it does late what it would have done without any delay. */
  lemma ProcessorArrives<S(!new)>(p: Processor<S>, channels: nat, buses: nat, entry: int, delay: nat, main: seq<Frame>, aux: seq<AuxFrame>)
    requires Compensable(p, channels, buses) && |aux| == |main| && p.latency <= |main|
    ensures var late := Run(p, entry - delay, SilentFrames(channels, delay) + main, SilentBuses(buses, channels, delay) + aux);
            var run := Run(p, entry, main, aux);
            && late.Some? && run.Some? && |run.value.1| == |main|
            && late.value.1 == SilentFrames(channels, delay + p.latency) + Behind(run.value.1, p.latency)
  {
    assert SkipsSilence(p, channels, buses, entry - delay, delay, main, aux);
    assert HoldsBack(p, channels, entry, main, aux);
    assert KeepsLength(p, Entered(p, entry).value, entry, main, aux);
    var out := Run(p, entry, main, aux).value.1;
    assert out == SilentFrames(channels, p.latency) + out[p.latency..];
    MoreSilence(channels, delay, p.latency);
    assert SilentFrames(channels, delay) + (SilentFrames(channels, p.latency) + out[p.latency..])
        == (SilentFrames(channels, delay) + SilentFrames(channels, p.latency)) + out[p.latency..];
  }

  /** A rack fed late hands on, late by its own latency as well, what it does without delays. */
  lemma {:induction false} RackArrives<S(!new)>(slots: seq<Slot<S>>, k: nat, channels: nat, buses: seq<nat>, entry: int, delay: nat,
                                                main: seq<Frame>, aux: seq<seq<AuxFrame>>, late: seq<seq<AuxFrame>>)
    requires CompensableRack(slots, channels, buses) && DelaysAccumulate(slots, delay)
    requires k <= |slots| && SlotLatencies(slots) <= |main|
    requires RackAuxArrives(slots, buses, channels, aux, late, delay + |main|)
    ensures var latency := SlotLatencies(slots[..k]);
            var out := Advanced(slots, k, entry, main, aux);
            && latency <= |main| && out.Some? && |out.value| == |main| - latency
            && Stage(slots, k, entry, SilentFrames(channels, delay) + main, late) == Some(SilentFrames(channels, delay + latency) + out.value)
    decreases k
  {
    hide Compensable, SlotLatencies, Behind, AuxArrives;
    LatenciesGrow(slots, k);
    if k == 0 {
      NoLatency(slots);
    } else {
      RackArrives(slots, k - 1, channels, buses, entry, delay, main, aux, late);
      SlotArrives(slots, k, channels, buses[k - 1], entry, slots[k - 1].inputDelay, Advanced(slots, k - 1, entry, main, aux).value,
                  SilentFrames(channels, delay) + main, main, aux, late);
    }
  }

  lemma NoLatency<S>(slots: seq<Slot<S>>)
    ensures SlotLatencies(slots[..0]) == 0
  {}

  /** One processor more, when what comes before it has arrived. */
  lemma SlotArrives<S(!new)>(slots: seq<Slot<S>>, k: nat, channels: nat, buses: nat, entry: int, delay: nat, before: seq<Frame>,
                             early: seq<Frame>, main: seq<Frame>, aux: seq<seq<AuxFrame>>, late: seq<seq<AuxFrame>>)
    requires 0 < k <= |slots| == |aux| == |late| && Compensable(slots[k - 1].processor, channels, buses) && slots[k - 1].processor.latency <= |before|
    requires Advanced(slots, k - 1, entry, main, aux) == Some(before)
    requires Stage(slots, k - 1, entry, early, late) == Some(SilentFrames(channels, delay) + before)
    requires slots[k - 1].inputDelay == delay && AuxArrives(aux[k - 1], late[k - 1], buses, channels, delay, delay + |before|)
    ensures var out, latency := Advanced(slots, k, entry, main, aux), slots[k - 1].processor.latency;
            && out.Some? && |out.value| == |before| - latency
            && Stage(slots, k, entry, early, late) == Some(SilentFrames(channels, delay + latency) + out.value)
  {
    hide Compensable, SilentFrames, SilentBuses, Run, Entered;
    ProcessorArrives(slots[k - 1].processor, channels, buses, entry, delay, before, aux[k - 1][..|before|]);
  }

  // ------------------------------------------------------------------ processors that only delay

  ghost function Shifted(main: seq<Frame>, delay: nat, channels: nat): (out: seq<Frame>)
    ensures |out| == |main|
  {
    seq(|main|, i requires 0 <= i < |main| => if i < delay then Silence(channels) else main[i - delay])
  }

  ghost predicate DelaysRun<S>(p: Processor<S>, channels: nat, start: int, main: seq<Frame>, aux: seq<AuxFrame>) {
    Run(p, start, main, aux).Some? && Run(p, start, main, aux).value.1 == Shifted(main, p.latency, channels)
  }

  /** The processor delays its main input by its declared latency and does nothing else. */
  ghost predicate PureDelay<S(!new)>(p: Processor<S>, channels: nat) {
    forall start: int, main: seq<Frame>, aux: seq<AuxFrame> | |aux| == |main| :: DelaysRun(p, channels, start, main, aux)
  }

  lemma PureIsCompensable<S(!new)>(p: Processor<S>, channels: nat, buses: nat)
    requires Streaming(p) && PureDelay(p, channels)
    ensures Compensable(p, channels, buses)
  {
    hide Streaming, Run;
    forall start: int, main: seq<Frame>, aux: seq<AuxFrame> | |aux| == |main|
      ensures HoldsBack(p, channels, start, main, aux)
    {
      assert DelaysRun(p, channels, start, main, aux);
    }
    forall start: int, lead: nat, main: seq<Frame>, aux: seq<AuxFrame> | |aux| == |main|
      ensures SkipsSilence(p, channels, buses, start, lead, main, aux)
    {
      assert DelaysRun(p, channels, start, SilentFrames(channels, lead) + main, SilentBuses(buses, channels, lead) + aux);
      assert DelaysRun(p, channels, start + lead, main, aux);
      assert Shifted(SilentFrames(channels, lead) + main, p.latency, channels) == SilentFrames(channels, lead) + Shifted(main, p.latency, channels);
    }
  }

  /** Without delays a rack of them is not there at all. */
  lemma {:induction false} PureVanishes<S(!new)>(slots: seq<Slot<S>>, k: nat, channels: nat, start: int, main: seq<Frame>, aux: seq<seq<AuxFrame>>)
    requires k <= |slots| == |aux| && forall j :: 0 <= j < |slots| ==> PureDelay(slots[j].processor, channels) && |aux[j]| >= |main|
    requires SlotLatencies(slots) <= |main|
    ensures SlotLatencies(slots[..k]) <= |main| && Advanced(slots, k, start, main, aux) == Some(main[..|main| - SlotLatencies(slots[..k])])
    decreases k
  {
    hide Shifted, Behind, SlotLatencies, Run, Entered;
    LatenciesGrow(slots, k);
    if k > 0 {
      PureVanishes(slots, k - 1, channels, start, main, aux);
      var before := main[..|main| - SlotLatencies(slots[..k - 1])];
      var p := slots[k - 1].processor;
      assert DelaysRun(p, channels, start, before, aux[k - 1][..|before|]);
      BehindShifted(main, |before|, p.latency, channels);
    } else {
      NoLatency(slots);
      assert main == main[..|main|];
    }
  }

  lemma BehindShifted(main: seq<Frame>, n: nat, latency: nat, channels: nat)
    requires latency <= n <= |main|
    ensures Behind(Shifted(main[..n], latency, channels), latency) == main[..n - latency]
  {}
}
