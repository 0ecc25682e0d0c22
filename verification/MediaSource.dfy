/** A decoded media component as a pull source: an aligned window that must agree with the media. */
module MediaSource {
  import opened Frames

  /** What the decoder gives for a window that starts at a frame, or its failure. */
  type Decoder = (int, nat) -> Option<seq<Frame>>

  ghost predicate DecodesAt(decode: Decoder, media: int -> Frame, start: int, frames: nat) {
    decode(start, frames).Some? ==> IsMedia(decode(start, frames).value, media, start, frames)
  }

  ghost predicate IsMedia(pcm: seq<Frame>, media: int -> Frame, start: int, frames: nat) {
    |pcm| == frames && forall i :: 0 <= i < frames ==> pcm[i] == media(start + i)
  }

  /** Whatever the decoder delivers is the media. */
  ghost predicate Decodes(decode: Decoder, media: int -> Frame) {
    forall start: int, frames: nat :: DecodesAt(decode, media, start, frames)
  }

  class MediaRuntimeSource {
    const cacheFrames: nat
    const channels: nat
    ghost const media: int -> Frame
    /** None before the first window. */
    var cacheStart: Option<int>
    var cache: seq<Frame>
    /** The last refill failed and left a silent window in place of the media. */
    ghost var stale: bool

    ghost predicate Valid()
      reads this
    {
      && cacheFrames > 0 && |cache| == cacheFrames
      && (cacheStart.None? ==> !stale)
      && (cacheStart.Some? ==>
            if stale then cache == seq(cacheFrames, _ => Silence(channels)) else IsMedia(cache, media, cacheStart.value, cacheFrames))
    }

    predicate Holds(frame: int)
      reads this`cacheStart
    {
      cacheStart.Some? && cacheStart.value <= frame < cacheStart.value + cacheFrames
    }

    constructor (cacheFrames: nat, channels: nat, ghost media: int -> Frame)
      requires 0 < cacheFrames
      ensures Valid() && cacheStart.None? && this.cacheFrames == cacheFrames && this.channels == channels && this.media == media
    {
      this.cacheFrames, this.channels, this.media := cacheFrames, channels, media;
      cacheStart, stale := None, false;
      cache := seq(cacheFrames, _ => Silence(channels));
    }

    /** One frame through the window. It is the media exactly unless the window is the silent one that a
        failed refill left behind and still holds the frame. */
    method Fetch(frame: int, decode: Decoder) returns (pcm: Option<Frame>)
      requires Valid() && Decodes(decode, media) && frame >= 0
      modifies this`cacheStart, this`cache, this`stale
      ensures Valid() && Holds(frame)
      ensures stale <==> pcm.None? || (old(stale) && old(Holds(frame)))
      ensures pcm.Some? ==> pcm.value == if stale then Silence(channels) else media(frame)
      ensures pcm.None? ==> !old(Holds(frame))
    {
      if !Holds(frame) {
        WindowHolds(frame, cacheFrames);
        cacheStart := Some(frame / cacheFrames * cacheFrames);
        cache := seq(cacheFrames, _ => Silence(channels));
        var decoded := decode(cacheStart.value, cacheFrames);
        stale := decoded.None?;
        if decoded.None? {
          return None;
        }
        assert DecodesAt(decode, media, cacheStart.value, cacheFrames);
        cache := decoded.value;
      }
      assert media(cacheStart.value + (frame - cacheStart.value)) == media(frame);
      pcm := Some(cache[frame - cacheStart.value]);
    }

    /** All demanded frames, in the order of the output. Until a refill fails every answer is the media. */
    method ReadIndexed(demand: seq<int>, decode: Decoder) returns (pcm: Option<seq<Frame>>)
      requires Valid() && Decodes(decode, media)
      modifies this`cacheStart, this`cache, this`stale
      ensures Valid()
      ensures pcm.None? ==> stale
      ensures pcm.Some? && !old(stale) ==> !stale
      ensures pcm.Some? && !old(stale) ==> IsAnswer(demand, pcm.value)
    {
      var answer := [];
      for i := 0 to |demand|
        invariant Valid() && |answer| == i
        invariant !old(stale) ==> !stale && IsAnswer(demand[..i], answer)
      {
        var frame := Silence(channels);
        if demand[i] >= 0 {
          var fetched := Fetch(demand[i], decode);
          if fetched.None? {
            return None;
          }
          frame := fetched.value;
        }
        answer := answer + [frame];
      }
      assert demand[..|demand|] == demand;
      pcm := Some(answer);
    }

    ghost predicate IsAnswer(demand: seq<int>, pcm: seq<Frame>) {
      |pcm| == |demand| && forall i :: 0 <= i < |demand| ==> pcm[i] == if demand[i] < 0 then Silence(channels) else media(demand[i])
    }
  }

  /** A retry after a failed refill reports success and delivers silence, whatever the decoder would
      give by then: agreement with the media ends at the first failed read. */
  method RetryIsSilent(source: MediaRuntimeSource, frame: int, failing: Decoder, working: Decoder) returns (first: Option<Frame>, second: Option<Frame>)
    requires source.Valid() && frame >= 0
    requires Decodes(failing, source.media) && Decodes(working, source.media)
    modifies source
    ensures first.None? ==> second == Some(Silence(source.channels))
  {
    first := source.Fetch(frame, failing);
    second := source.Fetch(frame, working);
  }

  lemma WindowHolds(frame: int, frames: nat)
    requires frame >= 0 && frames > 0
    ensures 0 <= frame / frames * frames <= frame < frame / frames * frames + frames
  {
    assert frame == frame / frames * frames + frame % frames;
  }
}
