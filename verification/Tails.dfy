/** What a declared tail promises about sound, and what it means for a rack. */
module Tails {
  import opened Frames
  import opened Processors
  import opened Compensation
  import opened Transparency
  import opened Preparation

  /** Nothing is carried from frame `from` on; a negative frame lies before the entry, where nothing was carried either. */
  ghost predicate SilentFrom(frames: seq<Frame>, channels: nat, from: int) {
    forall i :: 0 <= i < |frames| && from <= i ==> frames[i] == Silence(channels)
  }

  ghost predicate BusesSilentFrom(aux: seq<AuxFrame>, buses: nat, channels: nat, from: int) {
    forall i :: 0 <= i < |aux| && from <= i ==> aux[i] == seq(buses, _ => Silence(channels))
  }

  /** When everything that the processor hears falls silent at `from`, it is silent itself as soon as its latency and
      `tail` more frames have passed. */
  ghost predicate Fades<S>(p: Processor<S>, channels: nat, buses: nat, tail: nat, start: int, main: seq<Frame>, aux: seq<AuxFrame>, from: int) {
    var run := Run(p, start, main, aux);
    run.Some? && SilentFrom(main, channels, from) && BusesSilentFrom(aux, buses, channels, from) ==>
      SilentFrom(run.value.1, channels, from + p.latency + tail)
  }

  ghost function TailFrames(tail: Tail): nat {
    if tail.Finite? then tail.frames else 0
  }

  /** A processor keeps the tail that it declares. An infinite one promises nothing. */
  ghost predicate KeepsTail<S>(p: Processor<S>, channels: nat, buses: nat, tail: Tail) {
    tail.Infinite? ||
    forall start: int, main: seq<Frame>, aux: seq<AuxFrame>, from: int | |aux| == |main| ::
      Fades(p, channels, buses, TailFrames(tail), start, main, aux, from)
  }

  // ------------------------------------------------------------------ racks

  /** The frames of all tails together. */
  ghost function AllFrames(tails: seq<Tail>): nat {
    if |tails| == 0 then 0 else AllFrames(tails[..|tails| - 1]) + TailFrames(tails[|tails| - 1])
  }

  ghost predicate Endless(tails: seq<Tail>) {
    exists j :: 0 <= j < |tails| && tails[j].Infinite?
  }

  /** The tail of a rack is infinite exactly when one of its processors has an infinite one, and otherwise as long as all
      of them together. */
  lemma {:induction false} RackTailIs(tails: seq<Tail>)
    ensures RackTail(tails).Infinite? <==> Endless(tails)
    ensures !Endless(tails) ==> TailFrames(RackTail(tails)) == AllFrames(tails)
    decreases |tails|
  {
    if |tails| > 0 {
      var head := tails[..|tails| - 1];
      RackTailIs(head);
      if Endless(head) {
        var j :| 0 <= j < |head| && head[j].Infinite?;
        assert tails[j].Infinite?;
      }
      if j :| 0 <= j < |tails| && tails[j].Infinite? {
        assert j < |head| ==> head[j].Infinite?;
      }
    }
  }

  ghost predicate RackKeepsTails<S>(rack: seq<PlannedProcessor<S>>, channels: nat, tails: seq<Tail>) {
    |tails| == |rack| && forall j :: 0 <= j < |rack| ==> KeepsTail(rack[j].processor, channels, rack[j].buses, tails[j])
  }

  lemma PrefixStep<S>(rack: seq<PlannedProcessor<S>>, k: nat)
    requires 0 < k <= |rack|
    ensures PrefixLatency(rack[..k]) == PrefixLatency(rack[..k - 1]) + rack[k - 1].processor.latency
  {
    assert rack[..k][..k - 1] == rack[..k - 1];
  }

  lemma {:induction false} PrefixGrows<S>(rack: seq<PlannedProcessor<S>>, k: nat)
    requires k <= |rack|
    ensures PrefixLatency(rack[..k]) <= PrefixLatency(rack)
    decreases |rack| - k
  {
    hide PrefixLatency;
    if k < |rack| {
      PrefixStep(rack, k + 1);
      PrefixGrows(rack, k + 1);
    } else {
      assert rack[..k] == rack;
    }
  }

  lemma FramesStep(tails: seq<Tail>, k: nat)
    requires 0 < k <= |tails|
    ensures AllFrames(tails[..k]) == AllFrames(tails[..k - 1]) + TailFrames(tails[k - 1])
  {
    assert tails[..k][..k - 1] == tails[..k - 1];
  }

  /** One processor of a rack, taken early by its latency: it fades within its tail. */
  lemma ProcessorFades<S(!new)>(p: Processor<S>, channels: nat, buses: nat, tail: Tail, start: int, main: seq<Frame>, aux: seq<AuxFrame>, from: int)
    requires Streaming(p) && KeepsTail(p, channels, buses, tail) && !tail.Infinite? && |aux| == |main| && p.latency <= |main|
    requires SilentFrom(main, channels, from) && BusesSilentFrom(aux, buses, channels, from)
    ensures var run := Run(p, start, main, aux);
            run.Some? ==> |Behind(run.value.1, p.latency)| == |main| - p.latency
                          && SilentFrom(Behind(run.value.1, p.latency), channels, from + TailFrames(tail))
  {
    assert Fades(p, channels, buses, TailFrames(tail), start, main, aux, from);
    if Run(p, start, main, aux).Some? {
      assert KeepsLength(p, Entered(p, start).value, start, main, aux);
    }
  }

  /** A rack whose processors keep their tails falls silent with the sum of them after its input. */
  lemma {:induction false} RackFades<S(!new)>(rack: seq<PlannedProcessor<S>>, tails: seq<Tail>, k: nat, channels: nat, start: int,
                                              main: seq<Frame>, aux: seq<seq<AuxFrame>>, from: int)
    requires RackKeepsTails(rack, channels, tails) && !Endless(tails) && k <= |rack| == |aux| && PrefixLatency(rack) <= |main|
    requires forall j :: 0 <= j < |rack| ==> Streaming(rack[j].processor)
    requires forall j :: 0 <= j < |rack| ==> |aux[j]| == |main| && BusesSilentFrom(aux[j], rack[j].buses, channels, from)
    requires SilentFrom(main, channels, from)
    ensures var out := Advanced(Slots(rack, 0), k, start, main, aux);
            out.Some? ==> && PrefixLatency(rack[..k]) <= |main| && |out.value| == |main| - PrefixLatency(rack[..k])
                          && SilentFrom(out.value, channels, from + AllFrames(tails[..k]))
    decreases k
  {
    hide Streaming, KeepsTail, PrefixLatency, AllFrames, Behind, SilentFrom, BusesSilentFrom, Run;
    PrefixGrows(rack, k);
    if k > 0 {
      PrefixStep(rack, k);
      FramesStep(tails, k);
      RackFades(rack, tails, k - 1, channels, start, main, aux, from);
      var before := Advanced(Slots(rack, 0), k - 1, start, main, aux);
      if before.Some? {
        var reached := from + AllFrames(tails[..k - 1]);
        SilentLater(aux[k - 1], rack[k - 1].buses, channels, from, |before.value|, reached);
        ProcessorFades(rack[k - 1].processor, channels, rack[k - 1].buses, tails[k - 1], start, before.value, aux[k - 1][..|before.value|], reached);
      }
    } else {
      NothingYet(rack, tails);
    }
  }

  lemma NothingYet<S>(rack: seq<PlannedProcessor<S>>, tails: seq<Tail>)
    ensures PrefixLatency(rack[..0]) == 0 && AllFrames(tails[..0]) == 0
  {}

  lemma SilentLater(aux: seq<AuxFrame>, buses: nat, channels: nat, from: int, length: nat, later: int)
    requires BusesSilentFrom(aux, buses, channels, from) && length <= |aux| && from <= later
    ensures BusesSilentFrom(aux[..length], buses, channels, later)
  {}
}
