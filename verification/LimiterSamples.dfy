/** The limiter over samples: what its gain and its output are, in plain arithmetic on what was fed. */
module LimiterSamples {
  import opened Frames
  import opened PeakWindow
  import opened Limiter
  import opened LimiterLaw

  /** No sample of any channel of the frames `[from, to]` is louder, and some sample is that loud unless all are silent. */
  ghost predicate IsLoudest(f: Feed, from: nat, to: nat, peak: real)
    requires to < |f.frames|
  {
    && (forall i, c :: from <= i <= to && 0 <= c < |f.frames[i]| ==> -peak <= f.frames[i][c] <= peak)
    && (peak == 0.0 || (peak > 0.0 && exists i, c :: from <= i <= to && 0 <= c < |f.frames[i]| && (f.frames[i][c] == peak || f.frames[i][c] == -peak)))
  }

  lemma LoudestInSamples(s: Settings, f: Feed, n: nat, peak: real)
    requires f.Valid() && n < |f.frames| && s.lookahead <= n && IsLoudest(f, n - s.lookahead, n, peak)
    ensures Loudest(s, f, n) == peak
  {
    hide PeakOf, Loudest;
    var i :| WindowStart(n, s.lookahead) <= i <= n && PeakOf(f.frames[i]) == Loudest(s, f, n);
    var loud := PeakOf(f.frames[i]);
    if loud > 0.0 {
      var c :| 0 <= c < |f.frames[i]| && (f.frames[i][c] == loud || f.frames[i][c] == -loud);
      assert -peak <= f.frames[i][c] <= peak;
    }
    if peak > 0.0 {
      var j, c :| n - s.lookahead <= j <= n && 0 <= c < |f.frames[j]| && (f.frames[j][c] == peak || f.frames[j][c] == -peak);
      assert PeakOf(f.frames[j]) <= Loudest(s, f, n);
    }
  }

  /** The gain: at once down to what keeps the loudest sample of the last `lookahead + 1` frames at the delayed ceiling,
      otherwise back towards one by the delayed release, as far as that sample allows. */
  lemma GainInSamples(s: Settings, f: Feed, n: nat, peak: real, before: real, ceiling: real, release: real)
    requires s.Valid() && f.Valid() && s.lookahead <= n < |f.frames| && IsLoudest(f, n - s.lookahead, n, peak)
    requires before == if n == 0 then 1.0 else GainAt(s, f, n - 1)
    requires ceiling == s.dbToLinear(f.ceilings[n - s.lookahead]) && release == s.release(f.releases[n - s.lookahead])
    ensures ceiling > 0.0 && before <= 1.0
    ensures peak > ceiling && ceiling / peak < before ==> GainAt(s, f, n) == ceiling / peak
    ensures peak > ceiling && ceiling / peak >= before ==>
              GainAt(s, f, n) == if 1.0 - (1.0 - before) * release < ceiling / peak then 1.0 - (1.0 - before) * release else ceiling / peak
    ensures peak <= ceiling ==> GainAt(s, f, n) == 1.0 - (1.0 - before) * release
  {
    hide Loudest, TargetAt, Follow, PeakOf, IsLoudest;
    LoudestInSamples(s, f, n, peak);
    LoudestDecides(s, f, n);
    if n > 0 {
      GainBounded(s, f, n - 1);
    }
    ConversionBounds(s, f.ceilings[n - s.lookahead], f.releases[n - s.lookahead]);
    Follows(before, Target(peak, ceiling), release, (1.0 - before) * release);
  }

  lemma ConversionBounds(s: Settings, db: real, ms: real)
    requires s.Valid()
    ensures s.dbToLinear(db) > 0.0 && 0.0 <= s.release(ms) <= 1.0
  {}

  lemma Follows(before: real, target: real, release: real, left: real)
    requires before <= 1.0 && 0.0 <= release <= 1.0 && left == (1.0 - before) * release
    ensures target < before ==> Follow(before, target, release) == target
    ensures target >= before ==> Follow(before, target, release) == if 1.0 - left < target then 1.0 - left else target
    ensures left >= 0.0
  {
    Fraction(1.0 - before, release);
  }

  /** Nothing is turned down while the delay fills. */
  lemma FillingIsUnity(s: Settings, f: Feed, n: nat)
    requires s.Valid() && f.Valid() && n < |f.frames| && n < s.lookahead
    ensures GainAt(s, f, n) == 1.0
  {}

  /** The output: silence while the delay fills, then every sample of the frame fed `lookahead` frames ago times the gain. */
  lemma OutputInSamples(s: Settings, f: Feed, n: nat)
    requires s.Valid() && f.Valid() && n < |f.frames|
    ensures n < s.lookahead ==> |OutputAt(s, f, n)| == s.channels && forall c :: 0 <= c < s.channels ==> OutputAt(s, f, n)[c] == 0.0
    ensures n >= s.lookahead ==>
              && |OutputAt(s, f, n)| == |f.frames[n - s.lookahead]|
              && forall c :: 0 <= c < |f.frames[n - s.lookahead]| ==> OutputAt(s, f, n)[c] == f.frames[n - s.lookahead][c] * GainAt(s, f, n)
  {
    hide GainAt, TargetAt, CeilingAt, OutputAt;
    Brickwall(s, f, n);
  }

  /** With no gain reduction pending and every sample of the window within the ceiling, the delayed frame leaves unchanged. */
  lemma PassesThrough(s: Settings, f: Feed, n: nat)
    requires s.Valid() && f.Valid() && s.lookahead <= n < |f.frames|
    requires n == 0 || GainAt(s, f, n - 1) == 1.0
    requires var ceiling := s.dbToLinear(f.ceilings[n - s.lookahead]);
             forall i, c :: n - s.lookahead <= i <= n && 0 <= c < |f.frames[i]| ==> -ceiling <= f.frames[i][c] <= ceiling
    ensures GainAt(s, f, n) == 1.0 && OutputAt(s, f, n) == f.frames[n - s.lookahead]
  {
    hide Loudest, TargetAt, OutputAt, PeakOf, DelayedFrame, Follow, Target;
    var ceiling := s.dbToLinear(f.ceilings[n - s.lookahead]);
    LinearIsPositive(s, f.ceilings[n - s.lookahead]);
    WindowWithin(s, f, n, ceiling);
    LoudestDecides(s, f, n);
    assert CeilingAt(s, f, n) == ceiling;
    Unlimited(Loudest(s, f, n), ceiling);
    FollowsTarget(1.0, 1.0, s.release(Delayed(f.releases, n, s.lookahead)));
    OutputInSamples(s, f, n);
    UnityKeeps(f.frames[n - s.lookahead]);
  }

  lemma UnityKeeps(frame: Frame)
    ensures forall c :: 0 <= c < |frame| ==> frame[c] * 1.0 == frame[c]
  {}

  /** When no sample of the window is beyond the ceiling, its loudest one is not. */
  lemma WindowWithin(s: Settings, f: Feed, n: nat, ceiling: real)
    requires f.Valid() && s.lookahead <= n < |f.frames| && ceiling > 0.0
    requires forall i, c :: n - s.lookahead <= i <= n && 0 <= c < |f.frames[i]| ==> -ceiling <= f.frames[i][c] <= ceiling
    ensures Loudest(s, f, n) <= ceiling
  {
    hide Loudest, PeakOf;
    var i :| WindowStart(n, s.lookahead) <= i <= n && PeakOf(f.frames[i]) == Loudest(s, f, n);
    var loud := PeakOf(f.frames[i]);
    if loud > 0.0 {
      var c :| 0 <= c < |f.frames[i]| && (f.frames[i][c] == loud || f.frames[i][c] == -loud);
      assert -ceiling <= f.frames[i][c] <= ceiling;
    }
  }
}
