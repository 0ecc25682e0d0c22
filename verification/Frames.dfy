/** One PCM frame is one sample for each channel. The operations are total: a
    missing channel reads as zero, so no layout precondition travels through
    the mixer proofs. */
module Frames {

  datatype Option<+T> = None | Some(value: T)

  type Frame = seq<real>

  function Silence(channels: nat): Frame {
    seq(channels, _ => 0.0)
  }

  function Sample(frame: Frame, channel: nat): real {
    if channel < |frame| then frame[channel] else 0.0
  }

  /** `destination += source`, the accumulation every summing kernel performs. */
  function Add(destination: Frame, source: Frame): Frame {
    seq(|destination|, c requires 0 <= c < |destination| => destination[c] + Sample(source, c))
  }

  /** One gain for every channel. */
  function Scale(frame: Frame, gain: real): Frame {
    seq(|frame|, c requires 0 <= c < |frame| => frame[c] * gain)
  }

  /** One gain for each channel. */
  function Shape(frame: Frame, gains: Frame): Frame {
    seq(|frame|, c requires 0 <= c < |frame| => frame[c] * Sample(gains, c))
  }

  lemma AddSilence(frame: Frame, channels: nat)
    ensures Add(frame, Silence(channels)) == frame
  {}

  lemma ScaleSilence(channels: nat, gain: real)
    ensures Scale(Silence(channels), gain) == Silence(channels)
  {}

  lemma ShapeSilence(channels: nat, gains: Frame)
    ensures Shape(Silence(channels), gains) == Silence(channels)
  {}

  /** The last frame of a history, silence for an empty one. */
  function Last(frames: seq<Frame>, channels: nat): Frame {
    if |frames| == 0 then Silence(channels) else frames[|frames| - 1]
  }
}
