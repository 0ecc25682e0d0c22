/** The tails that the built-in processors declare, against what a tail promises. */
module BuiltInTails {
  import opened Frames
  import opened Graph
  import opened Processors
  import opened SourceFrames
  import opened Schedule
  import opened Delay
  import opened Limiter
  import opened Compensation
  import opened Transparency
  import opened Preparation
  import opened Tails
  import opened ProgramMix
  import opened BuiltIns
  import opened LimiterLaw

  lemma DelayRun(delay: nat, latency: nat, channels: nat, start: int, main: seq<Frame>, aux: seq<AuxFrame>)
    ensures var run := Run(DelayProcessor(delay, latency, channels), start, main, aux);
            && run.Some? && |run.value.1| == |main|
            && forall i :: 0 <= i < |main| ==> run.value.1[i] == if i < delay then Silence(channels) else main[i - delay]
  {
    var run := Run(DelayProcessor(delay, latency, channels), start, main, aux);
    forall i | 0 <= i < |main|
      ensures run.value.1[i] == if i < delay then Silence(channels) else main[i - delay]
    {
      EmittedIsShift(delay, Silence(channels), main, i);
    }
  }

  ghost function Pulse(channels: nat, length: nat): (main: seq<Frame>)
    ensures |main| == length
  {
    seq(length, i => if i == 0 then seq(channels, _ => 1.0) else Silence(channels))
  }

  /** A delay keeps a declared tail exactly when that covers the part of the delay that is not its latency: the built-in
      one has no latency and its tail is the whole delay. */
  lemma DelayTailExactly(delay: nat, latency: nat, channels: nat, buses: nat, tail: Tail)
    requires channels > 0
    ensures KeepsTail(DelayProcessor(delay, latency, channels), channels, buses, tail)
            <==> tail.Infinite? || latency + (match tail case NoTail => 0 case Finite(frames) => frames case Infinite => 0) >= delay
  {
    var p := DelayProcessor(delay, latency, channels);
    if !tail.Infinite? {
      if latency + TailFrames(tail) >= delay {
        forall start: int, main: seq<Frame>, aux: seq<AuxFrame>, from: int | |aux| == |main|
          ensures Fades(p, channels, buses, TailFrames(tail), start, main, aux, from)
        {
          DelayRun(delay, latency, channels, start, main, aux);
        }
      } else {
        var main, aux := Pulse(channels, delay + 1), SilentBuses(buses, channels, delay + 1);
        DelayRun(delay, latency, channels, 0, main, aux);
        var out := Run(p, 0, main, aux).value.1;
        assert out[delay] == main[0] && out[delay][0] == 1.0;
        assert !SilentFrom(out, channels, 1 + latency + TailFrames(tail));
        assert !Fades(p, channels, buses, TailFrames(tail), 0, main, aux, 1);
      }
    }
  }

  lemma GainKeepsTail<S>(gain: Gain, created: S, channels: nat, buses: nat)
    ensures KeepsTail(GainProcessor(gain, created), channels, buses, NoTail)
  {
    var p := GainProcessor(gain, created);
    forall start: int, main: seq<Frame>, aux: seq<AuxFrame>, from: int | |aux| == |main|
      ensures Fades(p, channels, buses, 0, start, main, aux, from)
    {
      if SilentFrom(main, channels, from) {
        forall i | 0 <= i < |main| && from <= i
          ensures Gained(gain, start, main)[i] == Silence(channels)
        {
          ScaleSilence(channels, gain.At(start + i));
        }
      }
    }
  }

  /** The limiter ends with the frames it holds, whatever its gain is doing. */
  lemma LimiterKeepsTail(s: Settings, ceiling: int -> real, release: int -> real, buses: nat)
    requires s.Valid()
    ensures KeepsTail(LimiterProcessor(s, ceiling, release), s.channels, buses, NoTail)
  {
    var p := LimiterProcessor(s, ceiling, release);
    forall start: int, main: seq<Frame>, aux: seq<AuxFrame>, from: int | |aux| == |main|
      ensures Fades(p, s.channels, buses, 0, start, main, aux, from)
    {
      LimiterRun(s, ceiling, release, start, main, aux);
      var f := BlockFeed(ceiling, release, start, main);
      if SilentFrom(main, s.channels, from) {
        forall i | 0 <= i < |main| && from + s.lookahead <= i
          ensures Outputs(s, f, 0, |main|)[i] == Silence(s.channels)
        {
          SilentOutput(s, f, i);
        }
      }
    }
  }

  // ------------------------------------------------------------------ two delays in a row

  /** A contribution whose processing scope holds two built-in delays that declare their lengths as tails. */
  ghost predicate TwoDelays(c: PlannedContribution<seq<Frame>>, first: nat, second: nat, channels: nat) {
    && c.processors == [PlannedProcessor(DelayProcessor(first, 0, channels), 0, []), PlannedProcessor(DelayProcessor(second, 0, channels), 0, [])]
    && c.tails == [Finite(first), Finite(second)]
  }

  lemma RackOfTwoDelays(first: nat, second: nat, channels: nat, start: int, main: seq<Frame>, aux: seq<seq<AuxFrame>>)
    requires |aux| == 2 && |aux[0]| == |aux[1]| == |main|
    ensures var rack := [PlannedProcessor(DelayProcessor(first, 0, channels), 0, []), PlannedProcessor(DelayProcessor(second, 0, channels), 0, [])];
            var out := Advanced(Slots(rack, 0), 2, start, main, aux);
            && PrefixLatency(rack) == 0 && out.Some? && |out.value| == |main|
            && forall i :: 0 <= i < |main| ==> out.value[i] == if i < first + second then Silence(channels) else main[i - first - second]
  {
    hide Run;
    var a, b := PlannedProcessor(DelayProcessor(first, 0, channels), 0, []), PlannedProcessor(DelayProcessor(second, 0, channels), 0, []);
    assert [a, b][..1] == [a] && [a][..0] == [];
    DelayRun(first, 0, channels, start, main, aux[0][..|main|]);
    assert Advanced(Slots([a, b], 0), 0, start, main, aux) == Some(main);
    var middle := Advanced(Slots([a, b], 0), 1, start, main, aux).value;
    DelayRun(second, 0, channels, start, middle, aux[1][..|main|]);
  }

  lemma TwoDelaysExecute(c: PlannedContribution<seq<Frame>>, first: nat, second: nat, channels: nat)
    requires TwoDelays(c, first, second, channels)
    ensures PreparedContribution(c, 0).executionEnd == Some(c.end + first + second)
  {
    hide RackTail;
    var a, b := PlannedProcessor(DelayProcessor(first, 0, channels), 0, []), PlannedProcessor(DelayProcessor(second, 0, channels), 0, []);
    assert [a, b][..1] == [a] && [a][..0] == [];
    assert PrefixLatency([a][..0]) == 0 && PrefixLatency([a]) == 0 && PrefixLatency(c.processors) == 0;
    assert c.tails[..1] == [Finite(first)] && [Finite(first)][..0] == [];
    assert AllFrames([Finite(first)]) == first && AllFrames(c.tails) == first + second;
    RackTailIs(c.tails);
    var tail := RackTail(c.tails);
    assert !Endless(c.tails);
  }

  /** Every frame of such a contribution comes out exactly both delays later, also behind its placement, and a prepared
      schedule executes it for exactly that long. */
  lemma DelaysRingOut(p: Program<seq<Frame>>, signal: (nat, int) -> Frame, entry: int, k: nat, t: int, first: nat, second: nat)
    requires p.Compiled() && k < |p.contributions| && TwoDelays(p.contributions[k], first, second, p.channels) && p.channels > 0
    requires t >= entry && t >= p.contributions[k].start
    ensures p.contributions[k].timeMap.Valid()
    ensures var c := p.contributions[k];
            var heard := t - first - second;
            MixedContribution(p, signal, entry, k, t) ==
            if entry <= heard && c.start <= heard < c.end && c.timeMap.FrameAt(p.rate, heard) >= 0
            then Shape(Scale(signal(k, c.timeMap.FrameAt(p.rate, heard)), c.scopeGain.At(heard)), c.editGain.At(t))
            else Silence(p.channels)
    ensures PreparedContribution(p.contributions[k], 0).executionEnd == Some(p.contributions[k].end + first + second)
  {
    hide Advanced, KeepsTail;
    var c := p.contributions[k];
    assert p.ContributionCompiled(c);
    var start := Max(entry, c.start);
    DelayTailExactly(first, 0, p.channels, 0, Finite(first));
    DelayTailExactly(second, 0, p.channels, 0, Finite(second));
    assert TailsKept(c, p.channels);
    var length := t - start + 1;
    var main := MixedScopeInput(p, signal, k, start, length);
    RackOfTwoDelays(first, second, p.channels, start, main, SilentSidechains(c.processors, p.channels, length));
    if t - start >= first + second {
      var f := Demand(c.timeMap, p.rate, c.start, c.end, t - first - second);
      assert main[t - start - first - second] == Scale(if f < 0 then Silence(p.channels) else signal(k, f), c.scopeGain.At(t - first - second));
    }
    ScaleSilence(p.channels, c.scopeGain.At(t - first - second));
    ShapeSilence(p.channels, c.editGain.At(t));
    TwoDelaysExecute(c, first, second, p.channels);
  }
}
