/** Fixed compensation delay: a ring of past samples that one block at a time
    is pushed through. The specification is a queue; the ring is the in-place
    form of it. */
module Delay {

  /** What a delay line holding `queue` emits for `block`. */
  function Emitted<T>(queue: seq<T>, block: seq<T>): (emitted: seq<T>)
    ensures |emitted| == |block|
  {
    (queue + block)[..|block|]
  }

  /** What the line holds afterwards. */
  function Retained<T>(queue: seq<T>, block: seq<T>): (retained: seq<T>)
    ensures |retained| == |queue|
  {
    (queue + block)[|block|..]
  }

  /** Splitting a block anywhere changes neither the emitted samples nor the final content. */
  lemma SplitBlock<T>(queue: seq<T>, first: seq<T>, second: seq<T>)
    ensures Emitted(queue, first + second) == Emitted(queue, first) + Emitted(Retained(queue, first), second)
    ensures Retained(queue, first + second) == Retained(Retained(queue, first), second)
  {
    assert queue + (first + second) == (queue + first) + second;
  }

  /** A line of `n` zeroes is a shift by exactly `n` samples, over any whole input. */
  lemma EmittedIsShift<T>(n: nat, zero: T, input: seq<T>, i: nat)
    requires i < |input|
    ensures Emitted(seq(n, _ => zero), input)[i] == if i < n then zero else input[i - n]
    ensures n <= |input| ==> Retained(seq(n, _ => zero), input) == input[|input| - n..]
  {}

  lemma StretchIsRetained<T>(queue: seq<T>, block: seq<T>)
    ensures (queue + block)[|block|..|block| + |queue|] == Retained(queue, block)
    ensures forall i :: 0 <= i < |block| ==> (queue + block)[i] == Emitted(queue, block)[i]
  {}

  class FixedDelayLine {
    const samples: array<real>
    var cursor: nat

    ghost predicate Valid()
      reads this
    {
      if samples.Length == 0 then cursor == 0 else cursor < samples.Length
    }

    /** Oldest sample first. */
    ghost function Queue(): (queue: seq<real>)
      requires Valid()
      reads this, samples
      ensures |queue| == samples.Length
    {
      samples[cursor..] + samples[..cursor]
    }

    constructor (delayFrames: nat, channels: nat)
      ensures Valid() && fresh(samples)
      ensures Queue() == seq(delayFrames * channels, _ => 0.0)
    {
      samples := new real[delayFrames * channels](_ => 0.0);
      cursor := 0;
    }

    /** Delay one block and add it to `destination`. */
    method AddInterleaved(source: seq<real>, destination: array<real>) returns (ok: bool)
      requires Valid() && destination != samples
      modifies this`cursor, samples, destination
      ensures Valid()
      ensures ok <==> |source| == destination.Length
      ensures !ok ==> Queue() == old(Queue()) && destination[..] == old(destination[..])
      ensures ok ==> Queue() == Retained(old(Queue()), source)
      ensures ok ==> forall i :: 0 <= i < |source| ==>
                destination[i] == old(destination[i]) + Emitted(old(Queue()), source)[i]
    {
      if |source| != destination.Length {
        return false;
      }
      ok := AddWithGains(source, destination, seq(|source|, _ => 1.0));
    }

    /** Delay one block and add it with one gain. */
    method AddInterleavedConstant(source: seq<real>, destination: array<real>, gain: real) returns (ok: bool)
      requires Valid() && destination != samples
      modifies this`cursor, samples, destination
      ensures Valid()
      ensures ok <==> |source| == destination.Length
      ensures !ok ==> Queue() == old(Queue()) && destination[..] == old(destination[..])
      ensures ok ==> Queue() == Retained(old(Queue()), source)
      ensures ok ==> forall i :: 0 <= i < |source| ==>
                destination[i] == old(destination[i]) + Emitted(old(Queue()), source)[i] * gain
    {
      if |source| != destination.Length {
        return false;
      }
      ok := AddWithGains(source, destination, seq(|source|, _ => gain));
    }

    /** Delay one block and add it with gains read at the destination position:
        the gain of output `i` multiplies the delayed sample, not the one it entered with. */
    method AddWithGains(source: seq<real>, destination: array<real>, gains: seq<real>) returns (ok: bool)
      requires Valid() && destination != samples
      modifies this`cursor, samples, destination
      ensures Valid()
      ensures ok <==> |source| == destination.Length && |source| == |gains|
      ensures !ok ==> Queue() == old(Queue()) && destination[..] == old(destination[..])
      ensures ok ==> Queue() == Retained(old(Queue()), source)
      ensures ok ==> forall i :: 0 <= i < |source| ==>
                destination[i] == old(destination[i]) + Emitted(old(Queue()), source)[i] * gains[i]
    {
      if |source| != destination.Length || |source| != |gains| {
        return false;
      }
      if samples.Length == 0 {
        AddUndelayed(source, destination, gains);
        assert old(Queue()) + source == source;
      } else {
        ShiftIn(source, destination, gains);
      }
      ok := true;
    }

    method ShiftIn(source: seq<real>, destination: array<real>, gains: seq<real>)
      requires cursor < samples.Length
      requires destination != samples && |source| == destination.Length == |gains|
      modifies this`cursor, samples, destination
      ensures cursor < samples.Length
      ensures Queue() == Retained(old(Queue()), source)
      ensures forall i :: 0 <= i < |source| ==>
                destination[i] == old(destination[i]) + Emitted(old(Queue()), source)[i] * gains[i]
    {
      hide FixedDelayLine.Queue, Emitted, Retained;
      ghost var queue := Queue();
      ghost var stream := queue + source;
      RingIsStream(source, stream);
      AddDelayed(source, destination, gains, stream);
      QueueIsStretch(stream, |source|);
      StretchIsRetained(queue, source);
    }

    /** Element by element, the ring and the source block are the stream. */
    lemma RingIsStream(source: seq<real>, stream: seq<real>)
      requires cursor < samples.Length && stream == Queue() + source
      ensures forall i :: 0 <= i < |source| ==> source[i] == stream[samples.Length + i]
      ensures forall k :: cursor <= k < samples.Length ==> samples[k] == stream[k - cursor]
      ensures forall k :: 0 <= k < cursor ==> samples[k] == stream[samples.Length - cursor + k]
    {}

    method AddUndelayed(source: seq<real>, destination: array<real>, gains: seq<real>)
      requires destination != samples && |source| == destination.Length == |gains|
      modifies destination
      ensures forall i :: 0 <= i < |source| ==> destination[i] == old(destination[i]) + source[i] * gains[i]
    {
      for i := 0 to |source|
        invariant forall j :: 0 <= j < i ==> destination[j] == old(destination[j]) + source[j] * gains[j]
        invariant forall j :: i <= j < |source| ==> destination[j] == old(destination[j])
      {
        destination[i] := destination[i] + source[i] * gains[i];
      }
    }

    /** The ring read from the cursor on is the stretch of `stream` that starts at `i`. */
    lemma QueueIsStretch(stream: seq<real>, i: nat)
      requires cursor < samples.Length && i + samples.Length <= |stream|
      requires forall k :: cursor <= k < samples.Length ==> samples[k] == stream[i + k - cursor]
      requires forall k :: 0 <= k < cursor ==> samples[k] == stream[i + samples.Length - cursor + k]
      ensures Queue() == stream[i..i + samples.Length]
    {}

    /** `stream` is what the line held, followed by the source block. */
    method AddDelayed(source: seq<real>, destination: array<real>, gains: seq<real>, ghost stream: seq<real>)
      requires cursor < samples.Length
      requires destination != samples && |source| == destination.Length == |gains|
      requires |stream| == samples.Length + |source|
      requires forall i :: 0 <= i < |source| ==> source[i] == stream[samples.Length + i]
      requires forall k :: cursor <= k < samples.Length ==> samples[k] == stream[k - cursor]
      requires forall k :: 0 <= k < cursor ==> samples[k] == stream[samples.Length - cursor + k]
      modifies this`cursor, samples, destination
      ensures cursor < samples.Length
      ensures forall k :: cursor <= k < samples.Length ==> samples[k] == stream[|source| + k - cursor]
      ensures forall k :: 0 <= k < cursor ==> samples[k] == stream[|source| + samples.Length - cursor + k]
      ensures forall i :: 0 <= i < |source| ==> destination[i] == old(destination[i]) + stream[i] * gains[i]
    {
      for i := 0 to |source|
        invariant cursor < samples.Length
        invariant forall k {:trigger samples[k]} :: cursor <= k < samples.Length ==> samples[k] == stream[i + k - cursor]
        invariant forall k {:trigger samples[k]} :: 0 <= k < cursor ==> samples[k] == stream[i + samples.Length - cursor + k]
        invariant forall j :: 0 <= j < i ==> destination[j] == old(destination[j]) + stream[j] * gains[j]
        invariant forall j :: i <= j < |source| ==> destination[j] == old(destination[j])
      {
        var delayed := samples[cursor];
        samples[cursor] := source[i];
        cursor := cursor + 1;
        if cursor == samples.Length {
          cursor := 0;
        }
        destination[i] := destination[i] + delayed * gains[i];
      }
    }

    /** Forget everything: the line is again as constructed. */
    method Reset()
      requires Valid()
      modifies this`cursor, samples
      ensures Valid()
      ensures Queue() == seq(samples.Length, _ => 0.0)
    {
      forall i | 0 <= i < samples.Length {
        samples[i] := 0.0;
      }
      cursor := 0;
    }
  }
}
