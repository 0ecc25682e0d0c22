/** Whether delay compensation may treat the limiter as a pure shift of what it does: its lookahead is declared as
    latency, but its gain follower hears the ceilings of the time before the first frame. */
module LimiterLaw {
  import opened Frames
  import opened Processors
  import opened Compensation
  import opened PeakWindow
  import opened Limiter
  import opened BuiltIns

  ghost function CeilingOf(s: Settings, ceiling: int -> real, t: int): (linear: real)
    requires s.Valid()
    ensures linear > 0.0
  {
    LinearIsPositive(s, ceiling(t));
    s.dbToLinear(ceiling(t))
  }

  lemma LinearIsPositive(s: Settings, db: real)
    requires s.Valid()
    ensures s.dbToLinear(db) > 0.0
  {}

  ghost function CoefficientOf(s: Settings, release: int -> real, t: int): real {
    s.release(release(t))
  }

  /** The ceiling does not rise towards sample `t`, or the follower releases at once there. */
  ghost predicate HoldsDown(s: Settings, ceiling: int -> real, release: int -> real, t: int)
    requires s.Valid()
  {
    CeilingOf(s, ceiling, t - 1) >= CeilingOf(s, ceiling, t) || CoefficientOf(s, release, t) == 0.0
  }

  // ------------------------------------------------------------------ targets and gains

  lemma {:induction false} SilentPeak(n: nat)
    ensures PeakOf(Silence(n)) == 0.0
    decreases n
  {
    if n > 0 {
      assert Silence(n)[..n - 1] == Silence(n - 1);
      SilentPeak(n - 1);
    }
  }

  /** The loudest frame of the window that decides the gain at `n`. */
  ghost function Loudest(s: Settings, f: Feed, n: nat): (loudest: real)
    requires f.Valid() && n < |f.frames|
    ensures forall i :: WindowStart(n, s.lookahead) <= i <= n ==> PeakOf(f.frames[i]) <= loudest
    ensures exists i :: WindowStart(n, s.lookahead) <= i <= n && PeakOf(f.frames[i]) == loudest
  {
    var peaks, from := Peaks(f.frames[..n + 1]), WindowStart(n, s.lookahead);
    assert forall i :: from <= i <= n ==> peaks[i] == PeakOf(f.frames[i]);
    var loudest := WindowMaximum(peaks, from);
    assert exists i :: from <= i < |peaks| && peaks[i] == loudest;
    loudest
  }

  lemma LoudestIs(s: Settings, f: Feed, n: nat, i: nat, loudest: real)
    requires f.Valid() && n < |f.frames| && WindowStart(n, s.lookahead) <= i <= n && PeakOf(f.frames[i]) == loudest
    requires forall k :: WindowStart(n, s.lookahead) <= k <= n ==> PeakOf(f.frames[k]) <= loudest
    ensures Loudest(s, f, n) == loudest
  {
    hide PeakOf, WindowMaximum;
  }

  lemma LoudestDecides(s: Settings, f: Feed, n: nat)
    requires s.Valid() && f.Valid() && n < |f.frames|
    ensures TargetAt(s, f, n) == Target(Loudest(s, f, n), CeilingAt(s, f, n))
  {
    hide WindowMaximum, Target;
  }

  lemma TargetFalls(peak: real, louder: real, ceiling: real, lower: real)
    requires 0.0 <= peak <= louder && 0.0 < lower <= ceiling
    ensures Target(louder, lower) <= Target(peak, ceiling) <= 1.0
  {
    TargetBounded(louder, lower);
    TargetBounded(peak, ceiling);
    if peak > ceiling {
      assert louder > lower;
      LessOfMore(Target(peak, ceiling), Target(louder, lower), peak, louder);
    }
  }

  lemma LessOfMore(a: real, b: real, x: real, y: real)
    requires 0.0 <= a && 0.0 < x <= y && b * y <= a * x
    ensures b <= a
  {
    assert a * y >= a * x by {
      assert a * (y - x) >= 0.0;
    }
    assert b > a ==> (b - a) * y > 0.0;
  }

  lemma FollowsTarget(before: real, target: real, coefficient: real)
    requires 0.0 < target <= 1.0 && before <= 1.0 && 0.0 <= coefficient <= 1.0
    requires before >= target || coefficient == 0.0
    ensures Follow(before, target, coefficient) == target
  {
    if before == target {
      Fraction(1.0 - before, coefficient);
    } else if before < target {
      assert (1.0 - before) * coefficient == 0.0;
    }
  }

  /** The same frames, entered `lead` samples earlier and fed silence until then. */
  ghost function Early(s: Settings, ceiling: int -> real, release: int -> real, start: int, lead: nat, main: seq<Frame>): (feed: Feed)
    ensures feed.Valid() && |feed.frames| == lead + |main|
  {
    BlockFeed(ceiling, release, start, SilentFrames(s.channels, lead) + main)
  }

  /** While silence and the first frames pass, the window only gets louder. */
  lemma WindowGrows(s: Settings, ceiling: int -> real, release: int -> real, start: int, lead: nat, main: seq<Frame>, m: nat)
    requires s.Valid() && 0 < m < lead + |main| && s.lookahead <= m - 1 && m - 1 - s.lookahead < lead
    ensures var g := Early(s, ceiling, release, start, lead, main);
            0.0 <= Loudest(s, g, m - 1) <= Loudest(s, g, m)
  {
    hide PeakOf;
    SilentPeak(s.channels);
    var g := Early(s, ceiling, release, start, lead, main);
    assert g.frames[m - 1 - s.lookahead] == Silence(s.channels);
    var i :| WindowStart(m - 1, s.lookahead) <= i <= m - 1 && PeakOf(g.frames[i]) == Loudest(s, g, m - 1);
    assert PeakOf(g.frames[m]) <= Loudest(s, g, m);
    if i > m - 1 - s.lookahead {
      assert PeakOf(g.frames[i]) <= Loudest(s, g, m);
    }
  }

  /** At every step of that time the target falls or the follower jumps. */
  lemma TargetsFall(s: Settings, ceiling: int -> real, release: int -> real, start: int, lead: nat, main: seq<Frame>, m: nat)
    requires s.Valid() && s.lookahead < m < lead + |main| && m <= lead + s.lookahead
    requires s.lookahead == 0 || HoldsDown(s, ceiling, release, start + m - s.lookahead)
    ensures var g := Early(s, ceiling, release, start, lead, main);
            0.0 < TargetAt(s, g, m) <= 1.0
            && (TargetAt(s, g, m) <= TargetAt(s, g, m - 1) || s.release(Delayed(g.releases, m, s.lookahead)) == 0.0)
  {
    hide PeakOf, Target, TargetAt, Loudest;
    var g := Early(s, ceiling, release, start, lead, main);
    LoudestDecides(s, g, m);
    LoudestDecides(s, g, m - 1);
    WindowGrows(s, ceiling, release, start, lead, main, m);
    TargetBounded(Loudest(s, g, m), CeilingAt(s, g, m));
    assert CeilingAt(s, g, m) == CeilingOf(s, ceiling, start + m - s.lookahead);
    assert CeilingAt(s, g, m - 1) == CeilingOf(s, ceiling, start + m - s.lookahead - 1);
    if s.lookahead == 0 {
      SilentPeak(s.channels);
      assert g.frames[m - 1] == Silence(s.channels);
      Unlimited(Loudest(s, g, m - 1), CeilingAt(s, g, m - 1));
    } else if CeilingAt(s, g, m - 1) >= CeilingAt(s, g, m) {
      TargetFalls(Loudest(s, g, m - 1), Loudest(s, g, m), CeilingAt(s, g, m - 1), CeilingAt(s, g, m));
    }
  }

  lemma Unlimited(peak: real, ceiling: real)
    requires peak <= ceiling && ceiling > 0.0
    ensures Target(peak, ceiling) == 1.0
  {}

  /** So the gain is exactly the target until the first frame leaves. */
  lemma {:induction false} GainIsTarget(s: Settings, ceiling: int -> real, release: int -> real, start: int, lead: nat, main: seq<Frame>, m: nat)
    requires s.Valid() && s.lookahead <= m < lead + |main| && m <= lead + s.lookahead
    requires s.lookahead == 0 || forall t :: HoldsDown(s, ceiling, release, t)
    ensures var g := Early(s, ceiling, release, start, lead, main);
            GainAt(s, g, m) == TargetAt(s, g, m)
    decreases m
  {
    hide TargetAt, HoldsDown;
    var g := Early(s, ceiling, release, start, lead, main);
    TargetInRange(s, g, m);
    if m == s.lookahead {
      FollowsTarget(1.0, TargetAt(s, g, m), s.release(Delayed(g.releases, m, s.lookahead)));
    } else {
      GainIsTarget(s, ceiling, release, start, lead, main, m - 1);
      assert s.lookahead == 0 || HoldsDown(s, ceiling, release, start + m - s.lookahead);
      TargetsFall(s, ceiling, release, start, lead, main, m);
      TargetInRange(s, g, m - 1);
      FollowsTarget(TargetAt(s, g, m - 1), TargetAt(s, g, m), s.release(Delayed(g.releases, m, s.lookahead)));
    }
  }

  /** Once the delay is filled, nothing but the gain before sees how long silence went before. */
  lemma SameLanes(s: Settings, ceiling: int -> real, release: int -> real, start: int, lead: nat, main: seq<Frame>, n: nat)
    requires s.Valid() && s.lookahead <= n < |main|
    ensures var g, f := Early(s, ceiling, release, start, lead, main), BlockFeed(ceiling, release, start + lead, main);
            && CeilingAt(s, g, lead + n) == CeilingAt(s, f, n)
            && Delayed(g.releases, lead + n, s.lookahead) == Delayed(f.releases, n, s.lookahead)
            && DelayedFrame(s, g, lead + n) == DelayedFrame(s, f, n)
  {
    var g, f := Early(s, ceiling, release, start, lead, main), BlockFeed(ceiling, release, start + lead, main);
    assert g.ceilings[lead + n - s.lookahead] == f.ceilings[n - s.lookahead];
    assert g.releases[lead + n - s.lookahead] == f.releases[n - s.lookahead];
  }

  lemma SameLoudest(s: Settings, ceiling: int -> real, release: int -> real, start: int, lead: nat, main: seq<Frame>, n: nat)
    requires s.lookahead <= n < |main|
    ensures var g, f := Early(s, ceiling, release, start, lead, main), BlockFeed(ceiling, release, start + lead, main);
            Loudest(s, g, lead + n) == Loudest(s, f, n)
  {
    hide PeakOf, Loudest, Early, BlockFeed;
    var g, f := Early(s, ceiling, release, start, lead, main), BlockFeed(ceiling, release, start + lead, main);
    SameFrames(s, ceiling, release, start, lead, main);
    var j :| WindowStart(n, s.lookahead) <= j <= n && PeakOf(f.frames[j]) == Loudest(s, f, n);
    forall k | WindowStart(lead + n, s.lookahead) <= k <= lead + n
      ensures PeakOf(g.frames[k]) <= Loudest(s, f, n)
    {
      assert g.frames[lead + (k - lead)] == f.frames[k - lead];
    }
    assert g.frames[lead + j] == f.frames[j];
    LoudestIs(s, g, lead + n, lead + j, Loudest(s, f, n));
  }

  lemma SameFrames(s: Settings, ceiling: int -> real, release: int -> real, start: int, lead: nat, main: seq<Frame>)
    ensures var g, f := Early(s, ceiling, release, start, lead, main), BlockFeed(ceiling, release, start + lead, main);
            |f.frames| == |main| && forall i :: 0 <= i < |main| ==> g.frames[lead + i] == f.frames[i]
  {}

  lemma SameTarget(s: Settings, ceiling: int -> real, release: int -> real, start: int, lead: nat, main: seq<Frame>, n: nat)
    requires s.Valid() && s.lookahead <= n < |main|
    ensures var g, f := Early(s, ceiling, release, start, lead, main), BlockFeed(ceiling, release, start + lead, main);
            TargetAt(s, g, lead + n) == TargetAt(s, f, n)
  {
    hide TargetAt, Loudest, CeilingAt, Target;
    SameLanes(s, ceiling, release, start, lead, main, n);
    SameLoudest(s, ceiling, release, start, lead, main, n);
    LoudestDecides(s, Early(s, ceiling, release, start, lead, main), lead + n);
    LoudestDecides(s, BlockFeed(ceiling, release, start + lead, main), n);
  }

  lemma {:induction false} SameGain(s: Settings, ceiling: int -> real, release: int -> real, start: int, lead: nat, main: seq<Frame>, n: nat)
    requires s.Valid() && s.lookahead <= n < |main|
    requires s.lookahead == 0 || forall t :: HoldsDown(s, ceiling, release, t)
    ensures var g, f := Early(s, ceiling, release, start, lead, main), BlockFeed(ceiling, release, start + lead, main);
            GainAt(s, g, lead + n) == GainAt(s, f, n)
    decreases n
  {
    hide TargetAt, HoldsDown;
    var g, f := Early(s, ceiling, release, start, lead, main), BlockFeed(ceiling, release, start + lead, main);
    SameTarget(s, ceiling, release, start, lead, main, n);
    SameLanes(s, ceiling, release, start, lead, main, n);
    if n == s.lookahead {
      GainIsTarget(s, ceiling, release, start, lead, main, lead + n);
      TargetInRange(s, f, n);
      FollowsTarget(1.0, TargetAt(s, f, n), s.release(Delayed(f.releases, n, s.lookahead)));
    } else {
      SameGain(s, ceiling, release, start, lead, main, n - 1);
    }
  }

  lemma SilentOutput(s: Settings, f: Feed, n: nat)
    requires s.Valid() && f.Valid() && n < |f.frames| && DelayedFrame(s, f, n) == Silence(s.channels)
    ensures OutputAt(s, f, n) == Silence(s.channels)
  {
    hide GainAt;
    ScaleSilence(s.channels, GainAt(s, f, n));
    assert CeilingAt(s, f, n) > 0.0;
  }

  lemma SameOutput(s: Settings, ceiling: int -> real, release: int -> real, start: int, lead: nat, main: seq<Frame>, n: nat)
    requires s.Valid() && n < |main|
    requires s.lookahead == 0 || forall t :: HoldsDown(s, ceiling, release, t)
    ensures var g, f := Early(s, ceiling, release, start, lead, main), BlockFeed(ceiling, release, start + lead, main);
            OutputAt(s, g, lead + n) == OutputAt(s, f, n)
  {
    hide GainAt, HoldsDown, CeilingAt, ClampFrame;
    var g, f := Early(s, ceiling, release, start, lead, main), BlockFeed(ceiling, release, start + lead, main);
    if n < s.lookahead {
      SilentOutput(s, f, n);
      SilentOutput(s, g, lead + n);
    } else {
      SameGain(s, ceiling, release, start, lead, main, n);
      SameLanes(s, ceiling, release, start, lead, main, n);
    }
  }

  // ------------------------------------------------------------------ the law

  lemma LimiterRun(s: Settings, ceiling: int -> real, release: int -> real, start: int, main: seq<Frame>, aux: seq<AuxFrame>)
    requires s.Valid()
    ensures Run(LimiterProcessor(s, ceiling, release), start, main, aux)
            == Some((BlockFeed(ceiling, release, start, main), Outputs(s, BlockFeed(ceiling, release, start, main), 0, |main|)))
  {
    hide OutputAt;
    var f := BlockFeed(ceiling, release, start, main);
    assert Feed([], [], []).Then(f) == f;
  }

  /** The ceiling never rises where the release is not immediate: then the limiter is a pure shift of what it does. */
  lemma LimiterIsCompensable(s: Settings, ceiling: int -> real, release: int -> real, buses: nat)
    requires s.Valid()
    requires s.lookahead == 0 || forall t :: HoldsDown(s, ceiling, release, t)
    ensures Compensable(LimiterProcessor(s, ceiling, release), s.channels, buses)
  {
    hide Streaming, OutputAt, HoldsDown;
    var p := LimiterProcessor(s, ceiling, release);
    LimiterStreams(s, ceiling, release);
    forall start: int, main: seq<Frame>, aux: seq<AuxFrame> | |aux| == |main|
      ensures HoldsBack(p, s.channels, start, main, aux)
    {
      LimiterRun(s, ceiling, release, start, main, aux);
      forall i | 0 <= i < |main| && i < s.lookahead
        ensures OutputAt(s, BlockFeed(ceiling, release, start, main), i) == Silence(s.channels)
      {
        SilentOutput(s, BlockFeed(ceiling, release, start, main), i);
      }
    }
    forall start: int, lead: nat, main: seq<Frame>, aux: seq<AuxFrame> | |aux| == |main|
      ensures SkipsSilence(p, s.channels, buses, start, lead, main, aux)
    {
      SkipsLead(s, ceiling, release, buses, start, lead, main, aux);
    }
  }

  lemma SkipsLead(s: Settings, ceiling: int -> real, release: int -> real, buses: nat, start: int, lead: nat, main: seq<Frame>, aux: seq<AuxFrame>)
    requires s.Valid() && |aux| == |main|
    requires s.lookahead == 0 || forall t :: HoldsDown(s, ceiling, release, t)
    ensures SkipsSilence(LimiterProcessor(s, ceiling, release), s.channels, buses, start, lead, main, aux)
  {
    hide OutputAt, HoldsDown, BlockFeed;
    LimiterRun(s, ceiling, release, start, SilentFrames(s.channels, lead) + main, SilentBuses(buses, s.channels, lead) + aux);
    LimiterRun(s, ceiling, release, start + lead, main, aux);
    var g, f := Early(s, ceiling, release, start, lead, main), BlockFeed(ceiling, release, start + lead, main);
    var early, late := Outputs(s, g, 0, lead + |main|), Outputs(s, f, 0, |main|);
    forall i | 0 <= i < lead + |main|
      ensures early[i] == (SilentFrames(s.channels, lead) + late)[i]
    {
      if i < lead {
        LeadIsSilent(s, ceiling, release, start, lead, main, i);
      } else {
        SameOutput(s, ceiling, release, start, lead, main, i - lead);
      }
    }
  }

  lemma LeadIsSilent(s: Settings, ceiling: int -> real, release: int -> real, start: int, lead: nat, main: seq<Frame>, i: nat)
    requires s.Valid() && i < lead
    ensures OutputAt(s, Early(s, ceiling, release, start, lead, main), i) == Silence(s.channels)
  {
    hide OutputAt;
    SilentOutput(s, Early(s, ceiling, release, start, lead, main), i);
  }

  // ------------------------------------------------------------------ and only then

  /** One channel of one frame as loud as the ceiling at `t` allows, and silence in all others. */
  ghost function Click(s: Settings, ceiling: int -> real, t: int): (click: seq<Frame>)
    requires s.Valid() && s.channels > 0
    ensures |click| == s.lookahead + 1 && forall i :: 0 <= i < |click| ==> |click[i]| == s.channels
  {
    [ClickFrame(s, ceiling, t)] + SilentFrames(s.channels, s.lookahead)
  }

  ghost function ClickFrame(s: Settings, ceiling: int -> real, t: int): (frame: Frame)
    requires s.Valid() && s.channels > 0
    ensures |frame| == s.channels && frame[0] == CeilingOf(s, ceiling, t)
  {
    [CeilingOf(s, ceiling, t)] + Silence(s.channels - 1)
  }

  /** Entered with the click, the limiter lets it through. */
  lemma ClickPasses(s: Settings, ceiling: int -> real, release: int -> real, t: int)
    requires s.Valid() && s.channels > 0 && s.lookahead > 0
    ensures var f := BlockFeed(ceiling, release, t, Click(s, ceiling, t));
            && TargetAt(s, f, s.lookahead) == GainAt(s, f, s.lookahead) == 1.0
            && DelayedFrame(s, f, s.lookahead) == ClickFrame(s, ceiling, t)
            && Delayed(f.releases, s.lookahead, s.lookahead) == release(t)
  {
    hide PeakOf, Loudest, TargetAt;
    var n, loud := s.lookahead, CeilingOf(s, ceiling, t);
    var f := BlockFeed(ceiling, release, t, Click(s, ceiling, t));
    ClickPeaks(s, ceiling, t);
    LoudestIs(s, f, n, 0, loud);
    LoudestDecides(s, f, n);
    Unlimited(loud, loud);
    FollowsTarget(1.0, 1.0, s.release(Delayed(f.releases, n, n)));
  }

  /** Entered any earlier, it is turned down for the lower ceiling of the sample before. */
  lemma ClickIsTurnedDown(s: Settings, ceiling: int -> real, release: int -> real, t: int, lead: nat)
    requires s.Valid() && s.channels > 0 && s.lookahead > 0 && lead > 0 && CeilingOf(s, ceiling, t - 1) < CeilingOf(s, ceiling, t)
    ensures var g := Early(s, ceiling, release, t - lead, lead, Click(s, ceiling, t));
            GainAt(s, g, lead + s.lookahead - 1) < 1.0
  {
    hide PeakOf, Loudest, TargetAt, GainAt;
    var n, loud, quiet := lead + s.lookahead - 1, CeilingOf(s, ceiling, t), CeilingOf(s, ceiling, t - 1);
    var g := Early(s, ceiling, release, t - lead, lead, Click(s, ceiling, t));
    ClickPeaks(s, ceiling, t);
    assert forall i :: lead <= i < |g.frames| ==> g.frames[i] == Click(s, ceiling, t)[i - lead];
    assert g.frames[lead - 1] == Silence(s.channels);
    SilentPeak(s.channels);
    LoudestIs(s, g, n, lead, loud);
    LoudestDecides(s, g, n);
    GainBounded(s, g, n);
    assert CeilingAt(s, g, n) == quiet;
    TargetBounded(loud, quiet);
    assert Target(loud, quiet) == 1.0 ==> 1.0 * loud == quiet;
  }

  lemma ClickPeaks(s: Settings, ceiling: int -> real, t: int)
    requires s.Valid() && s.channels > 0
    ensures var click := Click(s, ceiling, t);
            && PeakOf(click[0]) == CeilingOf(s, ceiling, t)
            && forall i :: 0 < i < |click| ==> PeakOf(click[i]) == 0.0
  {
    hide PeakOf;
    OnePeak(CeilingOf(s, ceiling, t), s.channels - 1);
    SilentPeak(s.channels);
  }

  /** So the same click comes out softer, because the gain takes time to recover. */
  lemma ClickDiffers(s: Settings, ceiling: int -> real, release: int -> real, t: int, lead: nat)
    requires s.Valid() && s.channels > 0 && s.lookahead > 0 && lead > 0 && !HoldsDown(s, ceiling, release, t)
    ensures var main := Click(s, ceiling, t);
            var g, f := Early(s, ceiling, release, t - lead, lead, main), BlockFeed(ceiling, release, t, main);
            OutputAt(s, g, lead + s.lookahead) != OutputAt(s, f, s.lookahead)
  {
    hide OutputAt, TargetAt, Click, BlockFeed, CeilingAt, DelayedFrame, Delayed;
    var main, n, loud := Click(s, ceiling, t), s.lookahead, CeilingOf(s, ceiling, t);
    var g, f := Early(s, ceiling, release, t - lead, lead, main), BlockFeed(ceiling, release, t, main);
    BlockLength(ceiling, release, t, main);
    ClickPasses(s, ceiling, release, t);
    ClickIsTurnedDown(s, ceiling, release, t, lead);
    SameTarget(s, ceiling, release, t - lead, lead, main, n);
    SameLanes(s, ceiling, release, t - lead, lead, main, n);
    GainBounded(s, g, lead + n - 1);
    Recovering(GainAt(s, g, lead + n - 1), CoefficientOf(s, release, t));
    assert GainAt(s, g, lead + n) == Follow(GainAt(s, g, lead + n - 1), 1.0, CoefficientOf(s, release, t)) < 1.0;
    Brickwall(s, g, lead + n);
    Brickwall(s, f, n);
    assert OutputAt(s, f, n)[0] == loud * 1.0;
    Softer(loud, GainAt(s, g, lead + n));
    assert OutputAt(s, g, lead + n)[0] == loud * GainAt(s, g, lead + n);
  }

  lemma BlockLength(ceiling: int -> real, release: int -> real, start: int, main: seq<Frame>)
    ensures |BlockFeed(ceiling, release, start, main).frames| == |main|
  {}

  lemma Recovering(gain: real, coefficient: real)
    requires 0.0 < gain < 1.0 && 0.0 < coefficient <= 1.0
    ensures Follow(gain, 1.0, coefficient) < 1.0
  {
    assert (1.0 - gain) * coefficient > 0.0;
  }

  lemma Softer(x: real, gain: real)
    requires x > 0.0 && gain < 1.0
    ensures x * gain < x * 1.0
  {
    assert x * (1.0 - gain) > 0.0;
  }

  lemma {:induction false} OnePeak(x: real, silent: nat)
    requires x > 0.0
    ensures PeakOf([x] + Silence(silent)) == x
    decreases silent
  {
    var frame := [x] + Silence(silent);
    if silent == 0 {
      assert frame[..0] == [];
      assert PeakOf(frame[..0]) == 0.0;
    } else {
      OnePeak(x, silent - 1);
      assert frame[..silent] == [x] + Silence(silent - 1);
    }
  }

  /** The latency of the limiter is a pure shift exactly when it has none, or its ceiling never rises from one sample
      to the next while the release takes any time. */
  lemma CompensableExactly(s: Settings, ceiling: int -> real, release: int -> real, buses: nat)
    requires s.Valid() && s.channels > 0
    ensures Compensable(LimiterProcessor(s, ceiling, release), s.channels, buses)
            <==> s.lookahead == 0 || forall t :: HoldsDown(s, ceiling, release, t)
  {
    hide OutputAt, HoldsDown, Streaming, Run, BlockFeed, LimiterProcessor;
    if s.lookahead == 0 || forall t :: HoldsDown(s, ceiling, release, t) {
      LimiterIsCompensable(s, ceiling, release, buses);
    } else {
      var t :| !HoldsDown(s, ceiling, release, t);
      var main := Click(s, ceiling, t);
      var aux := SilentBuses(buses, s.channels, |main|);
      ClickDiffers(s, ceiling, release, t, 1);
      LimiterRun(s, ceiling, release, t - 1, SilentFrames(s.channels, 1) + main, SilentBuses(buses, s.channels, 1) + aux);
      LimiterRun(s, ceiling, release, t, main, aux);
      var late := Outputs(s, BlockFeed(ceiling, release, t, main), 0, |main|);
      assert (SilentFrames(s.channels, 1) + late)[s.lookahead + 1] == late[s.lookahead];
      assert !SkipsSilence(LimiterProcessor(s, ceiling, release), s.channels, buses, t - 1, 1, main, aux);
    }
  }
}
