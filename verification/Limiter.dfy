/** The linked-channel sample-peak lookahead limiter in exact arithmetic. */
module Limiter {
  import opened Frames
  import opened PeakWindow

  /** What preparation fixed. Decibel conversion is any positive function with value one
      at zero, the release coefficient any value between zero and one. */
  datatype Settings = Settings(lookahead: nat, channels: nat, maxBlock: nat, dbToLinear: real -> real, release: real -> real) {
    ghost predicate Valid() {
      && (forall db :: dbToLinear(db) > 0.0)
      && dbToLinear(0.0) == 1.0
      && (forall ms :: 0.0 <= release(ms) <= 1.0)
    }
  }

  /** Everything fed since state entry: PCM frames, ceilings in decibels, release times in milliseconds. */
  datatype Feed = Feed(frames: seq<Frame>, ceilings: seq<real>, releases: seq<real>) {
    ghost predicate Valid() {
      |frames| == |ceilings| == |releases|
    }

    ghost function Then(more: Feed): (feed: Feed)
      requires Valid() && more.Valid()
      ensures feed.Valid()
    {
      Feed(frames + more.frames, ceilings + more.ceilings, releases + more.releases)
    }
  }

  function Abs(x: real): (a: real)
    ensures a >= 0.0 && (a == x || a == -x)
  {
    if x < 0.0 then -x else x
  }

  function Larger(a: real, b: real): real { if a < b then b else a }

  function Smaller(a: real, b: real): real { if a < b then a else b }

  function Clamp(x: real, low: real, high: real): real {
    if x < low then low else if x > high then high else x
  }

  /** The sample peak over linked channels. */
  function PeakOf(samples: seq<real>): (peak: real)
    ensures peak >= 0.0
    ensures forall i :: 0 <= i < |samples| ==> -peak <= samples[i] <= peak && Abs(samples[i]) <= peak
    ensures peak == 0.0 || exists i :: 0 <= i < |samples| && (samples[i] == peak || samples[i] == -peak)
  {
    if |samples| == 0 then 0.0 else
    Larger(PeakOf(samples[..|samples| - 1]), Abs(samples[|samples| - 1]))
  }

  // ------------------------------------------------------------------ the limiter as a function of everything fed so far

  ghost function Peaks(frames: seq<Frame>): (peaks: seq<real>)
    ensures |peaks| == |frames|
  {
    seq(|frames|, i requires 0 <= i < |frames| => PeakOf(frames[i]))
  }

  /** A lane delayed by the lookahead; the delay starts out filled with zeroes. */
  ghost function Delayed(lane: seq<real>, n: nat, lookahead: nat): real
    requires n < |lane|
  {
    if n < lookahead then 0.0 else lane[n - lookahead]
  }

  /** PCM delayed by exactly the lookahead, before any gain. */
  ghost function DelayedFrame(s: Settings, f: Feed, n: nat): Frame
    requires f.Valid() && n < |f.frames|
  {
    if n < s.lookahead then Silence(s.channels) else f.frames[n - s.lookahead]
  }

  /** The ceiling that leaves the delay together with that frame. */
  ghost function CeilingAt(s: Settings, f: Feed, n: nat): real
    requires f.Valid() && n < |f.frames|
  {
    s.dbToLinear(Delayed(f.ceilings, n, s.lookahead))
  }

  function WindowStart(n: nat, lookahead: nat): nat {
    if n < lookahead then 0 else n - lookahead
  }

  function Target(peak: real, ceiling: real): real
    requires ceiling > 0.0
  {
    if peak > ceiling then ceiling / peak else 1.0
  }

  /** The gain the loudest of the last `lookahead + 1` frames asks for. */
  ghost function TargetAt(s: Settings, f: Feed, n: nat): real
    requires f.Valid() && n < |f.frames| && s.Valid()
  {
    Target(WindowMaximum(Peaks(f.frames[..n + 1]), WindowStart(n, s.lookahead)), CeilingAt(s, f, n))
  }

  /** Instant attack, exponential release. */
  function Follow(before: real, target: real, coefficient: real): real {
    var released := 1.0 - (1.0 - before) * coefficient;
    if target < before then target else Smaller(released, target)
  }

  /** The gain follower, at unity while the delay fills. */
  ghost function GainAt(s: Settings, f: Feed, n: nat): real
    requires f.Valid() && n < |f.frames| && s.Valid()
    decreases n
  {
    if n < s.lookahead then 1.0 else
    Follow(if n == 0 then 1.0 else GainAt(s, f, n - 1), TargetAt(s, f, n), s.release(Delayed(f.releases, n, s.lookahead)))
  }

  function ClampFrame(frame: Frame, ceiling: real): Frame {
    seq(|frame|, c requires 0 <= c < |frame| => Clamp(frame[c], -ceiling, ceiling))
  }

  ghost function OutputAt(s: Settings, f: Feed, n: nat): Frame
    requires f.Valid() && n < |f.frames| && s.Valid()
  {
    ClampFrame(Scale(DelayedFrame(s, f, n), GainAt(s, f, n)), CeilingAt(s, f, n))
  }

  // ------------------------------------------------------------------ what the limiter is for

  lemma TargetBounded(peak: real, ceiling: real)
    requires ceiling > 0.0
    ensures 0.0 < Target(peak, ceiling) <= 1.0
    ensures peak > ceiling ==> Target(peak, ceiling) * peak == ceiling
  {
    if peak > ceiling {
      var target := ceiling / peak;
      assert target * peak == ceiling;
      assert target > 1.0 ==> target * peak > peak;
    }
  }

  lemma FollowBounded(before: real, target: real, coefficient: real)
    requires 0.0 < before <= 1.0 && 0.0 <= coefficient <= 1.0 && 0.0 < target <= 1.0
    ensures 0.0 < Follow(before, target, coefficient) <= 1.0
    ensures Follow(before, target, coefficient) <= target
  {
    Fraction(1.0 - before, coefficient);
  }

  lemma Fraction(x: real, y: real)
    requires 0.0 <= x && 0.0 <= y <= 1.0
    ensures 0.0 <= x * y <= x
  {
    assert x * (1.0 - y) >= 0.0;
  }

  lemma TargetInRange(s: Settings, f: Feed, n: nat)
    requires s.Valid() && f.Valid() && n < |f.frames|
    ensures 0.0 < TargetAt(s, f, n) <= 1.0
  {
    hide WindowMaximum, Peaks, Target;
    TargetBounded(WindowMaximum(Peaks(f.frames[..n + 1]), WindowStart(n, s.lookahead)), CeilingAt(s, f, n));
  }

  /** The applied gain is always positive, never above unity, and obeys its target once the delay is filled. */
  lemma {:induction false} GainBounded(s: Settings, f: Feed, n: nat)
    requires f.Valid() && n < |f.frames| && s.Valid()
    ensures 0.0 < GainAt(s, f, n) <= 1.0
    ensures n >= s.lookahead ==> GainAt(s, f, n) <= TargetAt(s, f, n)
    decreases n
  {
    hide TargetAt, Follow, Delayed;
    if n >= s.lookahead {
      if n > 0 {
        GainBounded(s, f, n - 1);
      }
      TargetInRange(s, f, n);
      FollowBounded(if n == 0 then 1.0 else GainAt(s, f, n - 1), TargetAt(s, f, n), s.release(Delayed(f.releases, n, s.lookahead)));
    }
  }

  /** Brickwall: every delayed sample times the applied gain is already within the
      ceiling that was delayed with it, so the final clamp changes nothing. */
  lemma Brickwall(s: Settings, f: Feed, n: nat)
    requires f.Valid() && n < |f.frames| && s.Valid()
    ensures OutputAt(s, f, n) == Scale(DelayedFrame(s, f, n), GainAt(s, f, n))
    ensures forall c :: 0 <= c < |OutputAt(s, f, n)| ==> Abs(OutputAt(s, f, n)[c]) <= CeilingAt(s, f, n)
  {
    hide TargetAt, GainAt, WindowMaximum, Peaks, CeilingAt, Target, PeakOf;
    var delayed, gain, ceiling := DelayedFrame(s, f, n), GainAt(s, f, n), CeilingAt(s, f, n);
    GainBounded(s, f, n);
    forall c | 0 <= c < |delayed|
      ensures -ceiling <= delayed[c] * gain <= ceiling
    {
      ShapedSample(s, f, n, c);
    }
    ClampInside(Scale(delayed, gain), ceiling);
  }

  lemma ClampInside(frame: Frame, ceiling: real)
    requires forall c :: 0 <= c < |frame| ==> -ceiling <= frame[c] <= ceiling
    ensures ClampFrame(frame, ceiling) == frame
    ensures forall c :: 0 <= c < |frame| ==> Abs(frame[c]) <= ceiling
  {}

  lemma ShapedSample(s: Settings, f: Feed, n: nat, c: nat)
    requires f.Valid() && n < |f.frames| && s.Valid() && c < |DelayedFrame(s, f, n)|
    ensures -CeilingAt(s, f, n) <= DelayedFrame(s, f, n)[c] * GainAt(s, f, n) <= CeilingAt(s, f, n)
  {
    hide TargetAt, GainAt, WindowMaximum, Peaks, Target;
    GainBounded(s, f, n);
    if n >= s.lookahead {
      LouderPeak(s, f, n, c);
      var peak := WindowMaximum(Peaks(f.frames[..n + 1]), WindowStart(n, s.lookahead));
      WithinCeiling(DelayedFrame(s, f, n)[c], peak, CeilingAt(s, f, n), GainAt(s, f, n));
    }
  }

  lemma LouderPeak(s: Settings, f: Feed, n: nat, c: nat)
    requires f.Valid() && n < |f.frames| && s.Valid() && n >= s.lookahead
    requires c < |DelayedFrame(s, f, n)|
    ensures Abs(DelayedFrame(s, f, n)[c]) <= WindowMaximum(Peaks(f.frames[..n + 1]), WindowStart(n, s.lookahead))
    ensures TargetAt(s, f, n) == Target(WindowMaximum(Peaks(f.frames[..n + 1]), WindowStart(n, s.lookahead)), CeilingAt(s, f, n))
  {
    var peaks := Peaks(f.frames[..n + 1]);
    assert peaks[n - s.lookahead] == PeakOf(f.frames[n - s.lookahead]);
  }

  lemma WithinCeiling(sample: real, peak: real, ceiling: real, gain: real)
    requires Abs(sample) <= peak && 0.0 < ceiling && 0.0 < gain <= Target(peak, ceiling)
    ensures -ceiling <= sample * gain <= ceiling
  {
    hide Target;
    var target := Target(peak, ceiling);
    TargetBounded(peak, ceiling);
    QuietPeak(peak, ceiling);
    Product(sample, gain);
    BothMonotone(Abs(sample), peak, gain, target);
  }

  lemma BothMonotone(a: real, b: real, x: real, y: real)
    requires 0.0 <= a <= b && 0.0 <= x <= y
    ensures a * x <= y * b
  {
    Monotone(a, b, x);
    Monotone(x, y, b);
  }

  lemma Product(sample: real, gain: real)
    requires gain > 0.0
    ensures -(Abs(sample) * gain) <= sample * gain <= Abs(sample) * gain
  {}

  lemma QuietPeak(peak: real, ceiling: real)
    requires ceiling > 0.0
    ensures peak <= ceiling ==> Target(peak, ceiling) * peak == peak
  {}

  lemma Monotone(a: real, b: real, factor: real)
    requires a <= b && 0.0 <= factor
    ensures a * factor <= b * factor
  {}

  /** The output at a frame never depends on what is fed later, so any split into blocks gives the same PCM. */
  lemma {:induction false} Causal(s: Settings, f: Feed, more: Feed, n: nat)
    requires f.Valid() && more.Valid() && n < |f.frames| && s.Valid()
    ensures GainAt(s, f.Then(more), n) == GainAt(s, f, n)
    ensures OutputAt(s, f.Then(more), n) == OutputAt(s, f, n)
    ensures DelayedFrame(s, f.Then(more), n) == DelayedFrame(s, f, n)
    ensures Delayed(f.Then(more).ceilings, n, s.lookahead) == Delayed(f.ceilings, n, s.lookahead)
    decreases n
  {
    hide TargetAt, Follow, Scale, ClampFrame;
    if n > 0 {
      Causal(s, f, more, n - 1);
    }
    TargetCausal(s, f, more, n);
  }

  lemma TargetCausal(s: Settings, f: Feed, more: Feed, n: nat)
    requires f.Valid() && more.Valid() && n < |f.frames| && s.Valid()
    ensures TargetAt(s, f.Then(more), n) == TargetAt(s, f, n)
  {
    hide WindowMaximum, Peaks, Target;
    assert f.Then(more).frames[..n + 1] == f.frames[..n + 1];
  }

  // ------------------------------------------------------------------ the processor in place

  datatype ProcessError = BlockTooLarge | ParameterOutOfContract | FrameIdentityOverflow

  const CEILING_DB_MIN: real := -24.0
  const CEILING_DB_MAX: real := 0.0
  const RELEASE_MS_MIN: real := 5.0
  const RELEASE_MS_MAX: real := 5000.0
  const U64_MAX: nat := 0xFFFF_FFFF_FFFF_FFFF

  /** Every ceiling lies between -24 and 0 dB and every release between 5 ms and 5 s. */
  ghost predicate InContract(ceilings: seq<real>, releases: seq<real>) {
    && (forall i :: 0 <= i < |ceilings| ==> -24.0 <= ceilings[i] <= 0.0)
    && (forall i :: 0 <= i < |releases| ==> 5.0 <= releases[i] <= 5000.0)
  }

  predicate ParametersAdmitted(ceilings: seq<real>, releases: seq<real>) {
    && (forall i :: 0 <= i < |ceilings| ==> CEILING_DB_MIN <= ceilings[i] <= CEILING_DB_MAX)
    && (forall i :: 0 <= i < |releases| ==> RELEASE_MS_MIN <= releases[i] <= RELEASE_MS_MAX)
  }

  /** Slot `k` of a ring whose cursor stands behind `n` elements holds the element of the last
      turn that was stored there, or the initial value when there was none. */
  ghost predicate RingHolds<T>(ring: seq<T>, cursor: nat, lane: seq<T>, initial: T)
    requires |ring| > 0 ==> cursor < |ring|
  {
    && (forall k :: 0 <= k < cursor && k < |ring| ==> ring[k] == LaneAt(lane, |lane| - cursor + k, initial))
    && (forall k :: cursor <= k < |ring| ==> ring[k] == LaneAt(lane, |lane| - cursor + k - |ring|, initial))
  }

  ghost function LaneAt<T>(lane: seq<T>, i: int, initial: T): T {
    if 0 <= i < |lane| then lane[i] else initial
  }

  /** Exchanging the slot at the cursor yields the element `|ring|` steps ago and stores the new one. */
  lemma RingExchanged<T>(ring: seq<T>, cursor: nat, lane: seq<T>, initial: T, next: T)
    requires cursor < |ring| && cursor <= |lane| && RingHolds(ring, cursor, lane, initial)
    ensures ring[cursor] == LaneAt(lane, |lane| - |ring|, initial)
    ensures var advanced := if cursor + 1 == |ring| then 0 else cursor + 1;
            RingHolds(ring[cursor := next], advanced, lane + [next], initial)
  {}

  lemma FreshRing<T>(ring: seq<T>, initial: T)
    requires forall k :: 0 <= k < |ring| ==> ring[k] == initial
    ensures RingHolds(ring, 0, [], initial)
  {}

  lemma EmptyWindow()
    ensures IsWindow([], Peaks([]), 0)
  {}

  /** First index of the peak window after `n` frames. */
  function WindowFrom(n: nat, lookahead: nat): nat {
    if n == 0 then 0 else WindowStart(n - 1, lookahead)
  }

  class LookaheadLimiter {
    const settings: Settings
    const delayedAudio: array<Frame>
    const delayedCeilings: array<real>
    const delayedReleases: array<real>
    const peaks: FixedPeakWindow
    var delayCursor: nat
    var processedFrames: nat
    var appliedGain: real
    var lastReleaseMs: Option<real>
    var lastReleaseCoefficient: real
    ghost var feed: Feed

    ghost predicate Shaped()
      reads this, peaks
    {
      && settings.Valid()
      && delayedAudio.Length == delayedCeilings.Length == delayedReleases.Length == settings.lookahead
      && delayedCeilings != delayedReleases
      && peaks.Valid() && peaks.values.Length == settings.lookahead + 1
      && peaks.values != delayedCeilings && peaks.values != delayedReleases
      && peaks.values as object != delayedAudio && peaks.indices as object != delayedAudio
      && peaks.indices as object != delayedCeilings && peaks.indices as object != delayedReleases
    }

    /** The block belongs to the caller. */
    ghost predicate Apart(pcm: array<Frame>) {
      && pcm != delayedAudio
      && pcm as object != delayedCeilings && pcm as object != delayedReleases
      && pcm as object != peaks.values && pcm as object != peaks.indices
    }

    ghost predicate Valid()
      reads this, peaks, peaks.values, peaks.indices, delayedAudio, delayedCeilings, delayedReleases
    {
      && Shaped()
      && feed.Valid() && processedFrames == |feed.frames| <= U64_MAX
      && RingsHold()
      && IsWindow(peaks.Entries(), Peaks(feed.frames), WindowFrom(processedFrames, settings.lookahead))
      && appliedGain == (if processedFrames == 0 then 1.0 else GainAt(settings, feed, processedFrames - 1))
      && (lastReleaseMs.Some? ==> lastReleaseCoefficient == settings.release(lastReleaseMs.value))
    }

    ghost predicate RingsHold()
      requires Shaped() && feed.Valid()
      reads this, peaks, delayedAudio, delayedCeilings, delayedReleases
    {
      && delayCursor <= |feed.frames|
      && (if settings.lookahead == 0 then delayCursor == 0 else delayCursor < settings.lookahead)
      && RingHolds(delayedAudio[..], delayCursor, feed.frames, Silence(settings.channels))
      && RingHolds(delayedCeilings[..], delayCursor, feed.ceilings, 0.0)
      && RingHolds(delayedReleases[..], delayCursor, feed.releases, 0.0)
    }

    constructor (settings: Settings)
      requires settings.Valid()
      ensures Valid() && feed == Feed([], [], []) && this.settings == settings
    {
      this.settings := settings;
      delayedAudio := new Frame[settings.lookahead](_ => Silence(settings.channels));
      delayedCeilings := new real[settings.lookahead](_ => 0.0);
      delayedReleases := new real[settings.lookahead](_ => 0.0);
      peaks := new FixedPeakWindow(settings.lookahead + 1);
      delayCursor, processedFrames := 0, 0;
      appliedGain := 1.0;
      lastReleaseMs, lastReleaseCoefficient := None, 0.0;
      feed := Feed([], [], []);
      new;
      hide RingHolds, IsWindow, GainAt, Peaks;
      FreshRing(delayedAudio[..], Silence(settings.channels));
      FreshRing(delayedCeilings[..], 0.0);
      FreshRing(delayedReleases[..], 0.0);
      EmptyWindow();
    }

    method ClearDelays()
      requires Shaped()
      modifies delayedAudio, delayedCeilings, delayedReleases
      ensures RingHolds(delayedAudio[..], 0, [], Silence(settings.channels))
      ensures RingHolds(delayedCeilings[..], 0, [], 0.0) && RingHolds(delayedReleases[..], 0, [], 0.0)
    {
      hide RingHolds;
      forall i | 0 <= i < delayedAudio.Length { delayedAudio[i] := Silence(settings.channels); }
      forall i | 0 <= i < delayedCeilings.Length { delayedCeilings[i] := 0.0; }
      forall i | 0 <= i < delayedReleases.Length { delayedReleases[i] := 0.0; }
      FreshRing(delayedAudio[..], Silence(settings.channels));
      FreshRing(delayedCeilings[..], 0.0);
      FreshRing(delayedReleases[..], 0.0);
    }

    /** Forget everything fed so far. */
    method EnterState()
      requires Valid()
      modifies this, peaks, delayedAudio, delayedCeilings, delayedReleases
      ensures Valid() && feed == Feed([], [], [])
    {
      hide IsWindow, RingHolds, GainAt, Peaks, WindowMaximum;
      ClearDelays();
      delayCursor := 0;
      peaks.Clear();
      EmptyWindow();
      processedFrames := 0;
      appliedGain := 1.0;
      lastReleaseMs, lastReleaseCoefficient := None, 0.0;
      feed := Feed([], [], []);
    }

    /** Expire, insert and read the sliding peak: the ring never overflows and its front
        is the maximum of the last `lookahead + 1` frames. */
    method PushPeak(frame: Frame) returns (ok: bool, peak: real)
      requires Shaped() && feed.Valid() && processedFrames == |feed.frames|
      requires IsWindow(peaks.Entries(), Peaks(feed.frames), WindowFrom(processedFrames, settings.lookahead))
      modifies peaks, peaks.values, peaks.indices
      ensures Shaped() && ok
      ensures IsWindow(peaks.Entries(), Peaks(feed.frames + [frame]), WindowStart(processedFrames, settings.lookahead))
      ensures peak == WindowMaximum(Peaks(feed.frames + [frame]), WindowStart(processedFrames, settings.lookahead))
    {
      hide IsWindow, WindowMaximum, DropDominated, DropExpired, PeakOf;
      var minimum := WindowStart(processedFrames, settings.lookahead);
      ghost var before := Peaks(feed.frames);
      peak := PeakOf(frame);
      ExpireKeepsWindow(peaks.Entries(), before, WindowFrom(processedFrames, settings.lookahead), minimum);
      peaks.ExpireBefore(minimum);
      PushKeepsWindow(peaks.Entries(), before, minimum, peak);
      ok := peaks.Push(processedFrames, peak);
      assert Peaks(feed.frames + [frame]) == before + [peak];
      FrontIsMaximum(peaks.Entries(), before + [peak], minimum);
      peak := peaks.Maximum().value;
    }

    /** Swap one frame with the oldest content of the three delays. */
    method ExchangeDelays(frame: Frame, ceilingDb: real, releaseMs: real) returns (delayed: Frame, delayedCeiling: real, delayedRelease: real)
      requires Shaped() && feed.Valid() && RingsHold()
      modifies this`delayCursor, delayedAudio, delayedCeilings, delayedReleases
      ensures Shaped()
      ensures var after := feed.Then(Feed([frame], [ceilingDb], [releaseMs]));
              var n := |feed.frames|;
              && |after.frames| == n + 1
              && delayed == DelayedFrame(settings, after, n)
              && delayedCeiling == Delayed(after.ceilings, n, settings.lookahead)
              && delayedRelease == Delayed(after.releases, n, settings.lookahead)
              && delayCursor <= n + 1
              && (if settings.lookahead == 0 then delayCursor == 0 else delayCursor < settings.lookahead)
              && RingHolds(delayedAudio[..], delayCursor, after.frames, Silence(settings.channels))
              && RingHolds(delayedCeilings[..], delayCursor, after.ceilings, 0.0)
              && RingHolds(delayedReleases[..], delayCursor, after.releases, 0.0)
    {
      hide RingHolds;
      delayed, delayedCeiling, delayedRelease := frame, ceilingDb, releaseMs;
      if settings.lookahead > 0 {
        RingExchanged(delayedAudio[..], delayCursor, feed.frames, Silence(settings.channels), frame);
        RingExchanged(delayedCeilings[..], delayCursor, feed.ceilings, 0.0, ceilingDb);
        RingExchanged(delayedReleases[..], delayCursor, feed.releases, 0.0, releaseMs);
        delayed, delayedCeiling, delayedRelease := delayedAudio[delayCursor], delayedCeilings[delayCursor], delayedReleases[delayCursor];
        ghost var audio, ceilings, releases := delayedAudio[..], delayedCeilings[..], delayedReleases[..];
        delayedAudio[delayCursor] := frame;
        delayedCeilings[delayCursor] := ceilingDb;
        delayedReleases[delayCursor] := releaseMs;
        assert delayedAudio[..] == audio[delayCursor := frame];
        assert delayedCeilings[..] == ceilings[delayCursor := ceilingDb];
        assert delayedReleases[..] == releases[delayCursor := releaseMs];
        delayCursor := delayCursor + 1;
        if delayCursor == settings.lookahead {
          delayCursor := 0;
        }
      } else {
        EmptyRing(delayedAudio[..], feed.frames + [frame], Silence(settings.channels));
        EmptyRing(delayedCeilings[..], feed.ceilings + [ceilingDb], 0.0);
        EmptyRing(delayedReleases[..], feed.releases + [releaseMs], 0.0);
      }
    }

    /** The follower of one frame, with the release coefficient cached between frames. */
    method UpdateGain(peak: real, ceilingDb: real, releaseMs: real)
      requires Shaped() && (lastReleaseMs.Some? ==> lastReleaseCoefficient == settings.release(lastReleaseMs.value))
      modifies this`appliedGain, this`lastReleaseMs, this`lastReleaseCoefficient
      ensures lastReleaseMs.Some? ==> lastReleaseCoefficient == settings.release(lastReleaseMs.value)
      ensures appliedGain == if processedFrames < settings.lookahead then 1.0
                             else Follow(old(appliedGain), Target(peak, settings.dbToLinear(ceilingDb)), settings.release(releaseMs))
    {
      var ceiling := settings.dbToLinear(ceilingDb);
      var target := if peak > ceiling then ceiling / peak else 1.0;
      if processedFrames >= settings.lookahead {
        var coefficient;
        if lastReleaseMs == Some(releaseMs) {
          coefficient := lastReleaseCoefficient;
        } else {
          coefficient := settings.release(releaseMs);
          lastReleaseMs, lastReleaseCoefficient := Some(releaseMs), coefficient;
        }
        var released := 1.0 - (1.0 - appliedGain) * coefficient;
        appliedGain := if target < appliedGain then target else Smaller(released, target);
      } else {
        appliedGain := 1.0;
      }
    }

    /** Feed one frame: what leaves the delay, the ceiling it left with, and the gain to apply. */
    method ProcessFrame(frame: Frame, ceilingDb: real, releaseMs: real) returns (ok: bool, delayed: Frame, delayedCeiling: real)
      requires Valid() && processedFrames < U64_MAX
      modifies this, peaks, peaks.values, peaks.indices, delayedAudio, delayedCeilings, delayedReleases
      ensures Valid() && ok
      ensures feed == old(feed).Then(Feed([frame], [ceilingDb], [releaseMs])) && processedFrames == |feed.frames|
      ensures Delivered(settings, feed, |old(feed).frames|, delayed, appliedGain, delayedCeiling)
    {
      hide IsWindow, RingHolds, WindowMaximum, Peaks, Follow, Target, GainAt, DelayedFrame, Delayed;
      var peak;
      ghost var n := processedFrames;
      ghost var after := feed.Then(Feed([frame], [ceilingDb], [releaseMs]));
      ok, peak := PushPeak(frame);
      if !ok {
        return;
      }
      var delayedRelease;
      delayed, delayedCeiling, delayedRelease := ExchangeDelays(frame, ceilingDb, releaseMs);
      UpdateGain(peak, delayedCeiling, delayedRelease);
      FollowsFeed(settings, feed, after, n);
      processedFrames := processedFrames + 1;
      feed := after;
    }

    /** Process one block in place. A rejected block changes nothing; an admitted one is
        replaced by the limiter output over everything fed so far. */
    method Process(pcm: array<Frame>, ceilings: seq<real>, releases: seq<real>) returns (error: Option<ProcessError>)
      requires Valid() && |ceilings| == |releases| == pcm.Length
      requires Apart(pcm)
      modifies this, peaks, peaks.values, peaks.indices, delayedAudio, delayedCeilings, delayedReleases, pcm
      ensures Valid()
      ensures error == if pcm.Length > settings.maxBlock then Some(BlockTooLarge)
                       else if !InContract(ceilings, releases) then Some(ParameterOutOfContract)
                       else if |old(feed).frames| + pcm.Length >= 0x1_0000_0000_0000_0000 then Some(FrameIdentityOverflow)
                       else None
      ensures error.Some? ==> feed == old(feed) && pcm[..] == old(pcm[..])
      ensures error.None? ==>
                && feed == old(feed).Then(Feed(old(pcm[..]), ceilings, releases))
                && forall i :: 0 <= i < pcm.Length ==> pcm[i] == OutputAt(settings, feed, |old(feed).frames| + i)
    {
      hide IsWindow, LookaheadLimiter.RingsHold, GainAt, OutputAt, ClampFrame, Scale, Delivered, Peaks;
      if pcm.Length > settings.maxBlock {
        return Some(BlockTooLarge);
      }
      if !ParametersAdmitted(ceilings, releases) {
        return Some(ParameterOutOfContract);
      }
      if processedFrames + pcm.Length > U64_MAX {
        return Some(FrameIdentityOverflow);
      }
      var gains, limits := DelayBlock(pcm, ceilings, releases);
      ghost var base, delayed := |old(feed).frames|, pcm[..];
      ApplyGains(settings, pcm, gains, limits);
      forall i | 0 <= i < pcm.Length
        ensures pcm[i] == OutputAt(settings, feed, base + i)
      {
        DeliveredIsOutput(settings, feed, base + i, delayed[i], gains[i], limits[i]);
      }
      error := None;
    }

    /** First pass: exchange every frame with the delay and record the gain and the ceiling it left with. */
    method DelayBlock(pcm: array<Frame>, ceilings: seq<real>, releases: seq<real>) returns (gains: seq<real>, limits: seq<real>)
      requires Valid() && |ceilings| == |releases| == pcm.Length && processedFrames + pcm.Length <= U64_MAX
      requires Apart(pcm)
      modifies this, peaks, peaks.values, peaks.indices, delayedAudio, delayedCeilings, delayedReleases, pcm
      ensures Valid() && |gains| == |limits| == pcm.Length
      ensures feed == old(feed).Then(Feed(old(pcm[..]), ceilings, releases))
      ensures forall i :: 0 <= i < pcm.Length ==> Delivered(settings, feed, |old(feed).frames| + i, pcm[i], gains[i], limits[i])
    {
      hide Delivered, IsWindow, RingHolds, WindowMaximum, Peaks, GainAt, LookaheadLimiter.RingsHold;
      ghost var input, before := pcm[..], feed;
      ghost var block := Feed(input, ceilings, releases);
      ghost var whole := before.Then(block);
      gains, limits := [], [];
      FedNothing(before, block);
      for i := 0 to pcm.Length
        invariant Valid() && |gains| == |limits| == i
        invariant feed == FedPart(before, block, i)
        invariant forall j :: i <= j < pcm.Length ==> pcm[j] == input[j]
        invariant forall j :: 0 <= j < i ==> Delivered(settings, whole, |before.frames| + j, pcm[j], gains[j], limits[j])
      {
        FedOneMore(before, block, i);
        var ok, delayed, limit := ProcessFrame(pcm[i], ceilings[i], releases[i]);
        StaysDelivered(settings, before, block, i, delayed, appliedGain, limit);
        pcm[i] := delayed;
        gains, limits := gains + [appliedGain], limits + [limit];
      }
      FedAll(before, block);
    }
  }

  /** Second and third pass: multiply by the gains, then clamp to the ceilings. */
  method ApplyGains(s: Settings, pcm: array<Frame>, gains: seq<real>, limits: seq<real>)
    requires |gains| == |limits| == pcm.Length
    modifies pcm
    ensures forall i :: 0 <= i < pcm.Length ==> pcm[i] == ClampFrame(Scale(old(pcm[i]), gains[i]), s.dbToLinear(limits[i]))
  {
    hide Scale, ClampFrame;
    forall i | 0 <= i < pcm.Length {
      pcm[i] := Scale(pcm[i], gains[i]);
    }
    for i := 0 to pcm.Length
      invariant forall j :: 0 <= j < i ==> pcm[j] == ClampFrame(Scale(old(pcm[j]), gains[j]), s.dbToLinear(limits[j]))
      invariant forall j :: i <= j < pcm.Length ==> pcm[j] == Scale(old(pcm[j]), gains[j])
    {
      pcm[i] := ClampFrame(pcm[i], s.dbToLinear(limits[i]));
    }
  }

  lemma DeliveredIsOutput(s: Settings, f: Feed, n: nat, delayed: Frame, gain: real, limit: real)
    requires Delivered(s, f, n, delayed, gain, limit)
    ensures OutputAt(s, f, n) == ClampFrame(Scale(delayed, gain), s.dbToLinear(limit))
  {}

  /** What the first pass delivers for frame `n`. */
  ghost predicate Delivered(s: Settings, f: Feed, n: nat, delayed: Frame, gain: real, limit: real) {
    && s.Valid() && f.Valid() && n < |f.frames|
    && delayed == DelayedFrame(s, f, n) && gain == GainAt(s, f, n) && limit == Delayed(f.ceilings, n, s.lookahead)
  }

  /** Feeding the rest of the block does not change what was delivered. */
  lemma StaysDelivered(s: Settings, before: Feed, block: Feed, i: nat, delayed: Frame, gain: real, limit: real)
    requires before.Valid() && block.Valid() && i < |block.frames|
    requires Delivered(s, FedPart(before, block, i + 1), |before.frames| + i, delayed, gain, limit)
    ensures Delivered(s, before.Then(block), |before.frames| + i, delayed, gain, limit)
  {
    hide GainAt, FedPart;
    FedRest(before, block, i + 1);
    Causal(s, FedPart(before, block, i + 1), Feed(block.frames[i + 1..], block.ceilings[i + 1..], block.releases[i + 1..]), |before.frames| + i);
  }

  /** The first `i` frames of a block fed after `before`. */
  ghost function FedPart(before: Feed, block: Feed, i: nat): (feed: Feed)
    requires before.Valid() && block.Valid() && i <= |block.frames|
    ensures feed.Valid() && |feed.frames| == |before.frames| + i
  {
    before.Then(Feed(block.frames[..i], block.ceilings[..i], block.releases[..i]))
  }

  lemma FedNothing(before: Feed, block: Feed)
    requires before.Valid() && block.Valid()
    ensures FedPart(before, block, 0) == before
  {}

  lemma FedAll(before: Feed, block: Feed)
    requires before.Valid() && block.Valid()
    ensures FedPart(before, block, |block.frames|) == before.Then(block)
  {
    assert block.frames[..|block.frames|] == block.frames;
    assert block.ceilings[..|block.frames|] == block.ceilings;
    assert block.releases[..|block.frames|] == block.releases;
  }

  lemma FedOneMore(before: Feed, block: Feed, i: nat)
    requires before.Valid() && block.Valid() && i < |block.frames|
    ensures FedPart(before, block, i).Then(Feed([block.frames[i]], [block.ceilings[i]], [block.releases[i]])) == FedPart(before, block, i + 1)
  {
    assert block.frames[..i + 1] == block.frames[..i] + [block.frames[i]];
    assert block.ceilings[..i + 1] == block.ceilings[..i] + [block.ceilings[i]];
    assert block.releases[..i + 1] == block.releases[..i] + [block.releases[i]];
  }

  lemma FedRest(before: Feed, block: Feed, i: nat)
    requires before.Valid() && block.Valid() && i <= |block.frames|
    ensures FedPart(before, block, i).Then(Feed(block.frames[i..], block.ceilings[i..], block.releases[i..])) == before.Then(block)
  {
    assert block.frames == block.frames[..i] + block.frames[i..];
    assert block.ceilings == block.ceilings[..i] + block.ceilings[i..];
    assert block.releases == block.releases[..i] + block.releases[i..];
  }

  lemma EmptyRing<T>(ring: seq<T>, lane: seq<T>, initial: T)
    requires |ring| == 0
    ensures RingHolds(ring, 0, lane, initial)
  {}

  /** One more frame fed moves the specified gain on by one step of the follower. */
  lemma FollowsFeed(s: Settings, before: Feed, after: Feed, n: nat)
    requires s.Valid() && before.Valid() && after.Valid() && n == |before.frames| && |after.frames| == n + 1
    requires after.frames[..n] == before.frames && after.ceilings[..n] == before.ceilings && after.releases[..n] == before.releases
    ensures GainAt(s, after, n) ==
            if n < s.lookahead then 1.0
            else Follow(if n == 0 then 1.0 else GainAt(s, before, n - 1),
                        Target(WindowMaximum(Peaks(after.frames), WindowStart(n, s.lookahead)), s.dbToLinear(Delayed(after.ceilings, n, s.lookahead))),
                        s.release(Delayed(after.releases, n, s.lookahead)))
  {
    hide WindowMaximum, Peaks, Follow, Target;
    assert after.frames[..n + 1] == after.frames;
    if n > 0 {
      var last := Feed([after.frames[n]], [after.ceilings[n]], [after.releases[n]]);
      assert after == before.Then(last);
      Causal(s, before, last, n - 1);
    }
  }
}
