/** Built-in processors against the law the Host relies on. */
module BuiltIns {
  import opened Frames
  import opened Graph
  import opened Processors
  import opened Compensation
  import opened Delay
  import opened Limiter

  /** A constant parameter event of one block: offset and value. */
  datatype ParameterEvent = ParameterEvent(offset: nat, value: real)

  /** The audible sample delay: a ring that every sample is swapped through. */
  class SampleDelay {
    const delayFrames: nat
    const delayLine: array<real>
    var cursor: nat

    ghost predicate Valid()
      reads this
    {
      if delayLine.Length == 0 then cursor == 0 else cursor < delayLine.Length
    }

    /** Oldest sample first. */
    ghost function Queue(): (queue: seq<real>)
      requires Valid()
      reads this, delayLine
      ensures |queue| == delayLine.Length
    {
      delayLine[cursor..] + delayLine[..cursor]
    }

    constructor (delayFrames: nat, channels: nat)
      ensures Valid() && fresh(delayLine) && this.delayFrames == delayFrames
      ensures Queue() == seq(delayFrames * channels, _ => 0.0)
    {
      this.delayFrames := delayFrames;
      delayLine := new real[delayFrames * channels](_ => 0.0);
      cursor := 0;
    }

    method EnterState()
      requires Valid()
      modifies this`cursor, delayLine
      ensures Valid() && Queue() == seq(delayLine.Length, _ => 0.0)
    {
      forall i | 0 <= i < delayLine.Length {
        delayLine[i] := 0.0;
      }
      cursor := 0;
    }

    /** The prepared delay length must arrive unchanged as one constant event. */
    predicate Admits(samples: nat, events: seq<ParameterEvent>) {
      if samples == 0 then events == []
      else |events| == 1 && events[0].offset == 0 && events[0].value == delayFrames as real
    }

    /** Nothing else arrives for an empty block, and for any other the prepared length once, at its begin. */
    lemma AdmitsOnly(samples: nat, events: seq<ParameterEvent>)
      ensures Admits(samples, events) <==> events == if samples == 0 then [] else [ParameterEvent(0, delayFrames as real)]
    {}

    /** Replace a block by what the ring held, and keep the block. */
    method Process(pcm: array<real>, events: seq<ParameterEvent>) returns (ok: bool)
      requires Valid() && pcm != delayLine
      modifies this`cursor, delayLine, pcm
      ensures Valid() && ok == Admits(pcm.Length, events)
      ensures !ok ==> pcm[..] == old(pcm[..]) && Queue() == old(Queue())
      ensures ok ==> pcm[..] == Emitted(old(Queue()), old(pcm[..])) && Queue() == Retained(old(Queue()), old(pcm[..]))
    {
      if !Admits(pcm.Length, events) {
        return false;
      }
      ok := true;
      if pcm.Length == 0 || delayLine.Length == 0 {
        assert old(Queue()) + old(pcm[..]) == old(pcm[..]) || pcm.Length == 0;
        return;
      }
      ghost var stream := Queue() + pcm[..];
      Swap(pcm, stream);
      RingIsQueue(stream, pcm.Length);
      assert pcm[..] == stream[..pcm.Length];
    }

    lemma RingIsQueue(stream: seq<real>, i: nat)
      requires cursor < delayLine.Length && i + delayLine.Length <= |stream|
      requires forall k :: cursor <= k < delayLine.Length ==> delayLine[k] == stream[i + k - cursor]
      requires forall k :: 0 <= k < cursor ==> delayLine[k] == stream[i + delayLine.Length - cursor + k]
      ensures Queue() == stream[i..i + delayLine.Length]
    {}

    method Swap(pcm: array<real>, ghost stream: seq<real>)
      requires cursor < delayLine.Length && pcm != delayLine
      requires |stream| == delayLine.Length + pcm.Length
      requires forall i :: 0 <= i < pcm.Length ==> pcm[i] == stream[delayLine.Length + i]
      requires forall k :: cursor <= k < delayLine.Length ==> delayLine[k] == stream[k - cursor]
      requires forall k :: 0 <= k < cursor ==> delayLine[k] == stream[delayLine.Length - cursor + k]
      modifies this`cursor, delayLine, pcm
      ensures cursor < delayLine.Length
      ensures forall i :: 0 <= i < pcm.Length ==> pcm[i] == stream[i]
      ensures forall k :: cursor <= k < delayLine.Length ==> delayLine[k] == stream[pcm.Length + k - cursor]
      ensures forall k :: 0 <= k < cursor ==> delayLine[k] == stream[pcm.Length + delayLine.Length - cursor + k]
    {
      for i := 0 to pcm.Length
        invariant cursor < delayLine.Length
        invariant forall k {:trigger delayLine[k]} :: cursor <= k < delayLine.Length ==> delayLine[k] == stream[i + k - cursor]
        invariant forall k {:trigger delayLine[k]} :: 0 <= k < cursor ==> delayLine[k] == stream[i + delayLine.Length - cursor + k]
        invariant forall j {:trigger pcm[j]} :: 0 <= j < i ==> pcm[j] == stream[j]
        invariant forall j {:trigger pcm[j]} :: i <= j < pcm.Length ==> pcm[j] == stream[delayLine.Length + j]
      {
        var delayed := delayLine[cursor];
        delayLine[cursor] := pcm[i];
        pcm[i] := delayed;
        cursor := cursor + 1;
        if cursor == delayLine.Length {
          cursor := 0;
        }
      }
    }
  }

  // ------------------------------------------------------------------ instances of the streaming law

  /** A ring of `delay` frames as a hosted processor with some declared latency. */
  function DelayProcessor(delay: nat, latency: nat, channels: nat): Processor<seq<Frame>> {
    Processor(latency, delay > 0, seq(delay, _ => Silence(channels)), _ => Some(seq(delay, _ => Silence(channels))),
              (line, _, main, _) => Some(if delay == 0 then (line, main) else (Retained(line, main), Emitted(line, main))))
  }

  /** The delay ring gives the same PCM for every partition. */
  lemma DelayStreams(delay: nat, latency: nat, channels: nat)
    ensures Streaming(DelayProcessor(delay, latency, channels))
  {
    var p := DelayProcessor(delay, latency, channels);
    forall line: seq<Frame>, start: int, a: seq<Frame>, b: seq<Frame>, xa: seq<AuxFrame>, xb: seq<AuxFrame> | |a| == |xa| && |b| == |xb|
      ensures SplitsAt(p, line, start, a, b, xa, xb)
    {
      SplitBlock(line, a, b);
    }
    forall line: seq<Frame>, start: int
      ensures IdlesOnEmpty(p, line, start)
    {
      assert line + [] == line;
    }
  }

  /** Whatever part of its delay a ring declares as latency, that part is a pure shift and the rest is its effect.
      The built-in one declares none, so its whole delay is heard. */
  lemma DelayIsCompensable(delay: nat, latency: nat, channels: nat, buses: nat)
    requires latency <= delay
    ensures Compensable(DelayProcessor(delay, latency, channels), channels, buses)
  {
    hide Streaming;
    var p := DelayProcessor(delay, latency, channels);
    DelayStreams(delay, latency, channels);
    forall start: int, main: seq<Frame>, aux: seq<AuxFrame> | |aux| == |main|
      ensures HoldsBack(p, channels, start, main, aux)
    {
      var out := Emitted(seq(delay, _ => Silence(channels)), main);
      forall i | 0 <= i < |main| && i < latency
        ensures out[i] == Silence(channels)
      {
        EmittedIsShift(delay, Silence(channels), main, i);
      }
    }
    forall start: int, lead: nat, main: seq<Frame>, aux: seq<AuxFrame> | |aux| == |main|
      ensures SkipsSilence(p, channels, buses, start, lead, main, aux)
    {
      DelaySkips(delay, channels, lead, main);
    }
  }

  lemma DelaySkips(delay: nat, channels: nat, lead: nat, main: seq<Frame>)
    ensures var line := seq(delay, _ => Silence(channels));
            Emitted(line, SilentFrames(channels, lead) + main) == SilentFrames(channels, lead) + Emitted(line, main)
  {
    var line := seq(delay, _ => Silence(channels));
    assert line + (SilentFrames(channels, lead) + main) == SilentFrames(channels, lead) + (line + main);
  }

  /** The gain processor: every frame under the gain of its own signal sample. */
  function GainProcessor<S>(gain: Gain, created: S): Processor<S> {
    Processor(0, false, created, _ => Some(created),
              (state, start, main, _) => Some((state, Gained(gain, start, main))))
  }

  function Gained(gain: Gain, start: int, main: seq<Frame>): (out: seq<Frame>)
    ensures |out| == |main|
  {
    seq(|main|, i requires 0 <= i < |main| => Scale(main[i], gain.At(start + i)))
  }

  lemma GainIsCompensable<S(!new)>(gain: Gain, created: S, channels: nat, buses: nat)
    ensures Compensable(GainProcessor(gain, created), channels, buses)
  {
    var p := GainProcessor(gain, created);
    forall state: S, start: int, a: seq<Frame>, b: seq<Frame>, xa: seq<AuxFrame>, xb: seq<AuxFrame> | |a| == |xa| && |b| == |xb|
      ensures SplitsAt(p, state, start, a, b, xa, xb)
    {
      assert Gained(gain, start, a + b) == Gained(gain, start, a) + Gained(gain, start + |a|, b);
    }
    forall start: int, lead: nat, main: seq<Frame>, aux: seq<AuxFrame> | |aux| == |main|
      ensures SkipsSilence(p, channels, buses, start, lead, main, aux)
    {
      forall i | 0 <= i < lead
        ensures Gained(gain, start, SilentFrames(channels, lead) + main)[i] == Silence(channels)
      {
        ScaleSilence(channels, gain.At(start + i));
      }
      assert Gained(gain, start, SilentFrames(channels, lead) + main) == SilentFrames(channels, lead) + Gained(gain, start + lead, main);
    }
  }

  /** Declared as latency in full, the same ring is exactly the pure delay that compensation removes. */
  lemma DelayIsPure(delay: nat, channels: nat)
    ensures PureDelay(DelayProcessor(delay, delay, channels), channels)
  {
    var p := DelayProcessor(delay, delay, channels);
    forall start: int, main: seq<Frame>, aux: seq<AuxFrame> | |aux| == |main|
      ensures DelaysRun(p, channels, start, main, aux)
    {
      forall i | 0 <= i < |main|
        ensures Emitted(seq(delay, _ => Silence(channels)), main)[i] == Shifted(main, delay, channels)[i]
      {
        EmittedIsShift(delay, Silence(channels), main, i);
      }
    }
  }

  /** One block of parameter values read from automation at signal time. */
  ghost function Lane(curve: int -> real, start: int, n: nat): (lane: seq<real>)
    ensures |lane| == n
  {
    seq(n, i requires 0 <= i < n => curve(start + i))
  }

  ghost function BlockFeed(ceiling: int -> real, release: int -> real, start: int, main: seq<Frame>): (feed: Feed)
    ensures feed.Valid() && |feed.frames| == |main|
  {
    Feed(main, Lane(ceiling, start, |main|), Lane(release, start, |main|))
  }

  ghost function LimiterStep(s: Settings, ceiling: int -> real, release: int -> real, fed: Feed, start: int, main: seq<Frame>): (Feed, seq<Frame>)
    requires s.Valid() && fed.Valid()
  {
    var after := fed.Then(BlockFeed(ceiling, release, start, main));
    (after, Outputs(s, after, |fed.frames|, |main|))
  }

  /** The limiter as a hosted processor: its state is what was fed since entry, its
      parameter lanes are read from automation. */
  ghost function LimiterProcessor(s: Settings, ceiling: int -> real, release: int -> real): Processor<Feed>
    requires s.Valid()
  {
    Processor(s.lookahead, true, Feed([], [], []), _ => Some(Feed([], [], [])),
              (fed: Feed, start: int, main: seq<Frame>, aux: seq<AuxFrame>) =>
                if fed.Valid() then Some(LimiterStep(s, ceiling, release, fed, start, main)) else Some((fed, main)))
  }

  lemma BlockFeedSplits(ceiling: int -> real, release: int -> real, start: int, a: seq<Frame>, b: seq<Frame>)
    ensures BlockFeed(ceiling, release, start, a + b) == BlockFeed(ceiling, release, start, a).Then(BlockFeed(ceiling, release, start + |a|, b))
  {}

  /** The limiter obeys the streaming law. */
  lemma LimiterStreams(s: Settings, ceiling: int -> real, release: int -> real)
    requires s.Valid()
    ensures Streaming(LimiterProcessor(s, ceiling, release))
  {
    var p := LimiterProcessor(s, ceiling, release);
    forall fed: Feed, start: int, a: seq<Frame>, b: seq<Frame>, xa: seq<AuxFrame>, xb: seq<AuxFrame> | |a| == |xa| && |b| == |xb|
      ensures SplitsAt(p, fed, start, a, b, xa, xb)
    {
      if fed.Valid() {
        LimiterSplits(s, ceiling, release, fed, start, a, b);
      }
    }
    forall fed: Feed, start: int
      ensures IdlesOnEmpty(p, fed, start)
    {
      if fed.Valid() {
        LimiterIdles(s, ceiling, release, fed, start);
      }
    }
  }

  lemma LimiterIdles(s: Settings, ceiling: int -> real, release: int -> real, fed: Feed, start: int)
    requires s.Valid() && fed.Valid()
    ensures LimiterStep(s, ceiling, release, fed, start, []) == (fed, [])
  {
    var nothing := BlockFeed(ceiling, release, start, []);
    assert fed.frames + nothing.frames == fed.frames;
    assert fed.ceilings + nothing.ceilings == fed.ceilings;
    assert fed.releases + nothing.releases == fed.releases;
  }

  lemma LimiterSplits(s: Settings, ceiling: int -> real, release: int -> real, fed: Feed, start: int, a: seq<Frame>, b: seq<Frame>)
    requires s.Valid() && fed.Valid()
    ensures var (middle, first) := LimiterStep(s, ceiling, release, fed, start, a);
            var (end, second) := LimiterStep(s, ceiling, release, middle, start + |a|, b);
            LimiterStep(s, ceiling, release, fed, start, a + b) == (end, first + second)
  {
    hide OutputAt, GainAt, BlockFeed;
    var middle := fed.Then(BlockFeed(ceiling, release, start, a));
    var more := BlockFeed(ceiling, release, start + |a|, b);
    BlockFeedSplits(ceiling, release, start, a, b);
    ThenAssociates(fed, BlockFeed(ceiling, release, start, a), more);
    StepCausal(s, middle, more, |fed.frames|, |a|);
    OutputsJoin(s, middle.Then(more), |fed.frames|, |a|, |b|);
  }

  lemma ThenAssociates(a: Feed, b: Feed, c: Feed)
    requires a.Valid() && b.Valid() && c.Valid()
    ensures a.Then(b.Then(c)) == a.Then(b).Then(c)
  {
    assert a.frames + (b.frames + c.frames) == a.frames + b.frames + c.frames;
    assert a.ceilings + (b.ceilings + c.ceilings) == a.ceilings + b.ceilings + c.ceilings;
    assert a.releases + (b.releases + c.releases) == a.releases + b.releases + c.releases;
  }

  /** `count` outputs of a feed, from `from` on. */
  ghost function Outputs(s: Settings, f: Feed, from: nat, count: nat): (out: seq<Frame>)
    requires s.Valid() && f.Valid() && from + count <= |f.frames|
    ensures |out| == count
  {
    seq(count, i requires 0 <= i < count => OutputAt(s, f, from + i))
  }

  lemma StepCausal(s: Settings, f: Feed, more: Feed, from: nat, count: nat)
    requires s.Valid() && f.Valid() && more.Valid() && from + count <= |f.frames|
    ensures Outputs(s, f.Then(more), from, count) == Outputs(s, f, from, count)
  {
    hide OutputAt, GainAt;
    forall i | 0 <= i < count
      ensures Outputs(s, f.Then(more), from, count)[i] == Outputs(s, f, from, count)[i]
    {
      Causal(s, f, more, from + i);
    }
  }

  lemma OutputsJoin(s: Settings, f: Feed, from: nat, a: nat, b: nat)
    requires s.Valid() && f.Valid() && from + a + b <= |f.frames|
    ensures Outputs(s, f, from, a) + Outputs(s, f, from + a, b) == Outputs(s, f, from, a + b)
  {
    hide OutputAt;
  }
}
