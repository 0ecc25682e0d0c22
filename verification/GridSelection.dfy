/** Dependency selection against what rendering hears: windows are exact on times, playback reads whole frames. */
module GridSelection {
  import opened Frames
  import opened SourceFrames
  import opened DependencyWindows
  import opened Dependency

  ghost function TimeOf(rate: int, sample: int): real
    requires rate > 0
  {
    sample as real / rate as real
  }

  /** The frame of the child that a nested clip reads at one sample. */
  ghost function GridFrame(c: Contribution, rate: int, sample: int): (frame: int)
    requires rate > 0
    ensures var position := c.sourceMap.At(TimeOf(rate, sample)) * rate as real;
            if c.boundary.Covering? then frame as real <= position < (frame + 1) as real
            else (frame as real) < position <= (frame + 1) as real
  {
    var position := c.sourceMap.At(TimeOf(rate, sample)) * rate as real;
    if c.boundary.Covering? || position.Floor as real != position then position.Floor else position.Floor - 1
  }

  /** It is the frame that rendering demands under the rational map of the clip. */
  lemma GridFrameIsDemanded(c: Contribution, m: TimeMap, rate: int, sample: int)
    requires rate > 0 && m.Valid() && c.boundary == m.boundary
    requires c.sourceMap == AffineMap(m.sequenceStart.Value(), m.sourceOrigin.Value(), m.scale.Value())
    ensures GridFrame(c, rate, sample) == m.FrameAt(rate, sample)
  {
    hide Rational.Value;
    var origin, start, scale := m.sourceOrigin.Value(), m.sequenceStart.Value(), m.scale.Value();
    var source := c.sourceMap.At(TimeOf(rate, sample));
    assert source == origin + (TimeOf(rate, sample) - start) * scale;
    assert m.Position(rate, sample) == source * rate as real;
    if c.boundary.Covering? {
      CoversOne(GridFrame(c, rate, sample), m.FrameAt(rate, sample), source * rate as real);
    } else {
      PrecedesOne(GridFrame(c, rate, sample), m.FrameAt(rate, sample), source * rate as real);
    }
  }

  lemma CoversOne(a: int, b: int, position: real)
    requires a as real <= position < (a + 1) as real && b as real <= position < (b + 1) as real
    ensures a == b
  {}

  lemma PrecedesOne(a: int, b: int, position: real)
    requires (a as real) < position <= (a + 1) as real && (b as real) < position <= (b + 1) as real
    ensures a == b
  {}

  /** The clip is read at this sample inside the window. */
  ghost predicate Reads(c: Contribution, window: Window, rate: int, sample: int)
    requires rate > 0
  {
    window.Contains(TimeOf(rate, sample)) && c.placement.Contains(TimeOf(rate, sample))
  }

  /** Every placement that is heard at the time `grid` is selected by the window. */
  ghost predicate Keeps(window: Window, grid: real) {
    forall placement: Range | placement.Valid() && placement.Contains(grid) :: Selects(window, placement)
  }

  ghost predicate Selects(window: Window, placement: Range) {
    IntersectHalfOpen(window, placement).Some?
  }

  /** The grid time does not lie before the window, and lies below its end or on an end that belongs to it. */
  predicate Keeping(window: Window, grid: real) {
    window.lower <= grid && (grid < window.upper || (grid == window.upper && window.upperInclusive))
  }

  lemma KeepsExactly(window: Window, grid: real)
    requires !window.IsEmpty()
    ensures Keeps(window, grid) <==> Keeping(window, grid)
  {
    hide IntersectHalfOpen;
    if Keeping(window, grid) {
      forall placement: Range | placement.Valid() && placement.Contains(grid)
        ensures Selects(window, placement)
      {
        KeepsPlacement(window, grid, placement);
      }
    } else {
      var missed := Range(grid, if grid < window.lower then window.lower - grid else 1.0);
      IntersectionExact(window, missed);
      assert missed.Valid() && missed.Contains(grid) && !Selects(window, missed);
    }
  }

  lemma KeepsPlacement(window: Window, grid: real, placement: Range)
    requires !window.IsEmpty() && Keeping(window, grid) && placement.Contains(grid)
    ensures Selects(window, placement)
  {
    hide IntersectHalfOpen;
    IntersectionExact(window, placement);
    var end := if window.upper < placement.End() then window.upper else placement.End();
    var common := if window.Contains(grid) then grid else (grid + end) / 2.0;
    assert window.Contains(common) && placement.Contains(common);
  }

  /** The source time from which on the window of a clip selects: the image of the first time it has in common
      with the placement, of the last one under a reversed map. */
  ghost function SelectsFrom(c: Contribution, window: Window): real {
    if c.sourceMap.scale < 0.0 then c.sourceMap.At(if window.upper > c.placement.End() then c.placement.End() else window.upper)
    else c.sourceMap.At(if window.lower < c.placement.start then c.placement.start else window.lower)
  }

  lemma SelectsFromIsLower(c: Contribution, window: Window)
    requires Selected(c, window)
    ensures SelectedSourceWindow(c, window).value.lower == SelectsFrom(c, window)
  {}

  lemma OverRate(frame: int, rate: int, t: real)
    requires rate > 0
    ensures frame as real / rate as real >= t <==> frame as real >= t * rate as real
    ensures frame as real / rate as real <= t <==> frame as real <= t * rate as real
  {
    var time := frame as real / rate as real;
    assert time * rate as real == frame as real;
    assert (time - t) * rate as real == frame as real - t * rate as real;
  }

  /** At one sample, every placement that the frame of the child falls into is selected exactly when the frame does
      not begin before the time from which on the window selects. */
  lemma SampleIsKept(c: Contribution, window: Window, rate: int, sample: int)
    requires rate > 0 && Reads(c, window, rate, sample)
    ensures Selected(c, window)
    ensures Keeps(SelectedSourceWindow(c, window).value, TimeOf(rate, GridFrame(c, rate, sample)))
            <==> GridFrame(c, rate, sample) as real >= SelectsFrom(c, window) * rate as real
  {
    hide IntersectHalfOpen, MapWindow, SelectsFrom;
    var t := TimeOf(rate, sample);
    ParentTimes(c, window, t);
    SelectsFromIsLower(c, window);
    var source, grid, u := SelectedSourceWindow(c, window).value, TimeOf(rate, GridFrame(c, rate, sample)), c.sourceMap.At(t);
    OverRate(GridFrame(c, rate, sample), rate, u);
    OverRate(GridFrame(c, rate, sample), rate, source.lower);
    SourceIsNotEmpty(c, window);
    KeepsExactly(source, grid);
  }

  /** Nothing that the clip lets through is left out of the closure. */
  ghost predicate KeepsAll(c: Contribution, window: Window, rate: int)
    requires rate > 0 && Selected(c, window)
  {
    forall sample: int | Reads(c, window, rate, sample) ::
      Keeps(SelectedSourceWindow(c, window).value, TimeOf(rate, GridFrame(c, rate, sample)))
  }

  lemma FramesFollow(c: Contribution, rate: int, a: int, b: int)
    requires rate > 0 && a <= b
    ensures c.sourceMap.scale >= 0.0 ==> GridFrame(c, rate, a) <= GridFrame(c, rate, b)
    ensures c.sourceMap.scale <= 0.0 ==> GridFrame(c, rate, a) >= GridFrame(c, rate, b)
  {
    var x, y := TimeOf(rate, a), TimeOf(rate, b);
    assert (y - x) * rate as real == (b - a) as real;
    var u, v := c.sourceMap.At(x), c.sourceMap.At(y);
    assert v - u == (y - x) * c.sourceMap.scale;
    assert v * rate as real - u * rate as real == (b - a) as real * c.sourceMap.scale;
  }

  /** Played forward, the first sample decides for the whole clip; played backward, the last one. */
  lemma EndDecides(c: Contribution, window: Window, rate: int, decisive: int)
    requires rate > 0 && Reads(c, window, rate, decisive)
    requires forall sample: int :: Reads(c, window, rate, sample) ==> if c.sourceMap.scale < 0.0 then sample <= decisive else sample >= decisive
    ensures Selected(c, window)
    ensures KeepsAll(c, window, rate) <==> GridFrame(c, rate, decisive) as real >= SelectsFrom(c, window) * rate as real
  {
    hide IntersectHalfOpen, MapWindow, SelectsFrom, GridFrame, Keeps;
    SampleIsKept(c, window, rate, decisive);
    forall sample: int | Reads(c, window, rate, sample)
      ensures GridFrame(c, rate, decisive) as real >= SelectsFrom(c, window) * rate as real ==>
                Keeps(SelectedSourceWindow(c, window).value, TimeOf(rate, GridFrame(c, rate, sample)))
    {
      SampleIsKept(c, window, rate, sample);
      if c.sourceMap.scale < 0.0 {
        FramesFollow(c, rate, sample, decisive);
      } else {
        FramesFollow(c, rate, decisive, sample);
      }
    }
  }

  /** A frozen clip loses nothing exactly when its one source time is the begin of a frame it covers. */
  lemma FrozenDecides(c: Contribution, window: Window, rate: int, sample: int)
    requires rate > 0 && c.sourceMap.scale == 0.0 && Reads(c, window, rate, sample)
    ensures Selected(c, window)
    ensures KeepsAll(c, window, rate) <==>
              c.boundary.Covering? && (c.sourceMap.sourceOrigin * rate as real).Floor as real == c.sourceMap.sourceOrigin * rate as real
  {
    hide IntersectHalfOpen, MapWindow, Keeps;
    FrozenFrame(c, window, rate, sample);
    SampleIsKept(c, window, rate, sample);
    forall other: int | Reads(c, window, rate, other)
      ensures Keeps(SelectedSourceWindow(c, window).value, TimeOf(rate, GridFrame(c, rate, other))) <==>
                GridFrame(c, rate, other) as real >= SelectsFrom(c, window) * rate as real
      ensures GridFrame(c, rate, other) == GridFrame(c, rate, sample)
    {
      SampleIsKept(c, window, rate, other);
      FrozenFrame(c, window, rate, other);
      FramesFollow(c, rate, if other < sample then other else sample, if other < sample then sample else other);
    }
  }

  lemma FrozenFrame(c: Contribution, window: Window, rate: int, sample: int)
    requires rate > 0 && c.sourceMap.scale == 0.0
    ensures SelectsFrom(c, window) == c.sourceMap.sourceOrigin
    ensures GridFrame(c, rate, sample) as real >= SelectsFrom(c, window) * rate as real <==>
              c.boundary.Covering? && (c.sourceMap.sourceOrigin * rate as real).Floor as real == c.sourceMap.sourceOrigin * rate as real
  {
    FrozenAt(c.sourceMap, TimeOf(rate, sample));
    FrozenAt(c.sourceMap, if window.lower < c.placement.start then c.placement.start else window.lower);
    var position := c.sourceMap.sourceOrigin * rate as real;
    assert c.sourceMap.At(TimeOf(rate, sample)) * rate as real == position;
    assert c.boundary.Covering? ==> GridFrame(c, rate, sample) == position.Floor;
  }

  // ------------------------------------------------------------------ what is heard through nested clips

  /** At this sample of the output, some frame read through the chain of nested clips falls into a placement of the media. */
  ghost predicate HearsAt(p: Project, at: Place, rate: int, sample: int, chain: seq<Contribution>, c: Contribution, media: Media)
    requires rate > 0
    decreases |chain|
  {
    && at in p.programs
    && if chain == [] then c in p.programs[at] && c.source == FromMedia(media) && c.placement.Contains(TimeOf(rate, sample)) else
       var d := chain[0];
       && d in p.programs[at] && d.source.Nested? && d.placement.Contains(TimeOf(rate, sample)) && GridFrame(d, rate, sample) >= 0
       && HearsAt(p, d.source.place, rate, GridFrame(d, rate, sample), chain[1..], c, media)
  }

  ghost predicate ReadsExactly(c: Contribution, rate: int, sample: int)
    requires rate > 0
  {
    TimeOf(rate, GridFrame(c, rate, sample)) == c.sourceMap.At(TimeOf(rate, sample))
  }

  /** The clip takes samples onto samples. */
  ghost predicate OnGrid(c: Contribution, rate: int)
    requires rate > 0
  {
    forall sample: int :: ReadsExactly(c, rate, sample)
  }

  ghost predicate IsWhole(x: real) { x.Floor as real == x }

  /** The position, in frames of the child, that a map reads at each sample. */
  ghost function Stepped(m: AffineMap, rate: int, sample: int): real {
    m.At(0.0) * rate as real + sample as real * m.scale
  }

  lemma PositionSteps(m: AffineMap, rate: int, sample: int)
    requires rate > 0
    ensures m.At(TimeOf(rate, sample)) * rate as real == Stepped(m, rate, sample)
  {
    var x := TimeOf(rate, sample);
    assert x * rate as real == sample as real;
    assert m.At(x) == m.At(0.0) + x * m.scale;
    assert x * m.scale * rate as real == (x * rate as real) * m.scale;
  }

  lemma ReadsWhole(c: Contribution, rate: int, sample: int)
    requires rate > 0
    ensures ReadsExactly(c, rate, sample) <==> c.boundary.Covering? && IsWhole(Stepped(c.sourceMap, rate, sample))
  {
    hide AffineMap.At, Stepped;
    var u, frame := c.sourceMap.At(TimeOf(rate, sample)), GridFrame(c, rate, sample);
    PositionSteps(c.sourceMap, rate, sample);
    OverRate(frame, rate, u);
    FrameIsWhole(frame, Stepped(c.sourceMap, rate, sample), c.boundary);
  }

  /** The frame that owns a position is the position only where it covers a whole one. */
  lemma FrameIsWhole(frame: int, position: real, boundary: Boundary)
    requires if boundary.Covering? then frame as real <= position < (frame + 1) as real else (frame as real) < position <= (frame + 1) as real
    ensures frame as real == position <==> boundary.Covering? && IsWhole(position)
  {
    if frame as real == position {
      WholeIs(frame, position);
    }
    if boundary.Covering? {
      assert frame == position.Floor;
    }
  }

  lemma WholeIs(k: int, x: real)
    requires x == k as real
    ensures IsWhole(x)
  {
    assert x.Floor == k;
  }

  lemma WholeProduct(n: int, x: real, product: real)
    requires IsWhole(x) && product == n as real * x
    ensures IsWhole(product)
  {
    assert n as real * x == (n * x.Floor) as real;
    WholeIs(n * x.Floor, product);
  }

  lemma WholeSum(a: real, b: real, sum: real)
    requires IsWhole(a) && sum == a + b
    ensures IsWhole(b) <==> IsWhole(sum)
  {
    assert sum.Floor == a.Floor + b.Floor;
  }

  lemma SteppedBegins(origin: real, scale: real)
    ensures origin + 0 as real * scale == origin && origin + 1 as real * scale == origin + scale
  {}

  lemma WholeSteps(m: AffineMap, rate: int, sample: int)
    ensures IsWhole(Stepped(m, rate, 0)) && IsWhole(Stepped(m, rate, 1)) <==> IsWhole(m.At(0.0) * rate as real) && IsWhole(m.scale)
    ensures IsWhole(m.At(0.0) * rate as real) && IsWhole(m.scale) ==> IsWhole(Stepped(m, rate, sample))
  {
    hide IsWhole, AffineMap.At;
    var origin := m.At(0.0) * rate as real;
    SteppedBegins(origin, m.scale);
    assert Stepped(m, rate, 0) == origin;
    assert Stepped(m, rate, 1) == origin + m.scale;
    if IsWhole(origin) {
      WholeSum(origin, m.scale, Stepped(m, rate, 1));
      if IsWhole(m.scale) {
        var steps := sample as real * m.scale;
        WholeProduct(sample, m.scale, steps);
        WholeSum(origin, steps, Stepped(m, rate, sample));
      }
    }
  }

  /** Exactly the maps that cover, step by whole frames and begin on one. */
  lemma OnGridExactly(c: Contribution, rate: int)
    requires rate > 0
    ensures OnGrid(c, rate) <==> c.boundary.Covering? && IsWhole(c.sourceMap.scale) && IsWhole(c.sourceMap.At(0.0) * rate as real)
  {
    hide IsWhole, ReadsExactly, Stepped, AffineMap.At;
    WholeSteps(c.sourceMap, rate, 0);
    ReadsWhole(c, rate, 0);
    ReadsWhole(c, rate, 1);
    assert OnGrid(c, rate) ==> ReadsExactly(c, rate, 0) && ReadsExactly(c, rate, 1);
    if c.boundary.Covering? && IsWhole(c.sourceMap.scale) && IsWhole(c.sourceMap.At(0.0) * rate as real) {
      forall sample: int
        ensures ReadsExactly(c, rate, sample)
      {
        ReadsWhole(c, rate, sample);
        WholeSteps(c.sourceMap, rate, sample);
      }
    }
  }

  ghost predicate AllOnGrid(p: Project, rate: int)
    requires rate > 0
  {
    forall place, c :: place in p.programs && c in p.programs[place] && c.source.Nested? ==> OnGrid(c, rate)
  }

  lemma {:induction false} HeardIsPlayed(p: Project, at: Place, rate: int, sample: int, chain: seq<Contribution>, c: Contribution, media: Media)
    requires rate > 0 && AllOnGrid(p, rate) && HearsAt(p, at, rate, sample, chain, c, media)
    ensures PlaysAt(p, at, TimeOf(rate, sample), chain, c, media)
    decreases |chain|
  {
    hide GridFrame;
    if chain != [] {
      var d := chain[0];
      assert ReadsExactly(d, rate, sample);
      HeardIsPlayed(p, d.source.place, rate, GridFrame(d, rate, sample), chain[1..], c, media);
    }
  }

  // ------------------------------------------------------------------ exactly, through chains of nested clips

  /** The frame read behind a chain of nested clips at one sample of the output. */
  ghost function FrameBehind(chain: seq<Contribution>, rate: int, sample: int): int
    requires rate > 0
  {
    if chain == [] then sample else FrameBehind(chain[1..], rate, GridFrame(chain[0], rate, sample))
  }

  /** The source time behind the chain, if every clip is placed at the time it is entered. */
  ghost function TimeBehind(chain: seq<Contribution>, t: real): Option<real> {
    if chain == [] then Some(t) else
    if chain[0].placement.Contains(t) then TimeBehind(chain[1..], chain[0].sourceMap.At(t)) else None
  }

  /** Some time of the window goes through the chain into the placement. */
  ghost predicate Reaches(chain: seq<Contribution>, window: Window, placement: Range) {
    exists t: real :: window.Contains(t) && EndsIn(chain, t, placement)
  }

  ghost predicate EndsIn(chain: seq<Contribution>, t: real, placement: Range) {
    TimeBehind(chain, t).Some? && placement.Contains(TimeBehind(chain, t).value)
  }

  /** Whatever is placed at the time `grid` behind the chain is reached from the window. */
  ghost predicate KeepsBehind(chain: seq<Contribution>, window: Window, grid: real) {
    forall placement: Range | placement.Valid() && placement.Contains(grid) :: Reaches(chain, window, placement)
  }

  /** The window of a range behind a chain of clips: cut to each placement and mapped through each clip. */
  function ChainWindow(chain: seq<Contribution>, window: Window): Option<Window> {
    if chain == [] then Some(window) else
    var source := SelectedSourceWindow(chain[0], window);
    if source.None? then None else ChainWindow(chain[1..], source.value)
  }

  /** The window behind the chain holds exactly the times that the window reaches through it. */
  lemma {:induction false} ChainWindowExact(chain: seq<Contribution>, window: Window, u: real)
    requires !window.IsEmpty()
    ensures ChainWindow(chain, window).Some? ==> !ChainWindow(chain, window).value.IsEmpty()
    ensures (exists t: real :: window.Contains(t) && TimeBehind(chain, t) == Some(u))
            <==> ChainWindow(chain, window).Some? && ChainWindow(chain, window).value.Contains(u)
    decreases |chain|
  {
    hide IntersectHalfOpen, MapWindow;
    if chain == [] {
      assert window.Contains(u) ==> TimeBehind(chain, u) == Some(u);
    } else {
      var c, rest := chain[0], chain[1..];
      IntersectionExact(window, c.placement);
      if Selected(c, window) {
        var source := SelectedSourceWindow(c, window).value;
        SourceIsNotEmpty(c, window);
        ChainWindowExact(rest, source, u);
        if t: real :| window.Contains(t) && TimeBehind(chain, t) == Some(u) {
          ParentTimes(c, window, t);
          assert TimeBehind(rest, c.sourceMap.At(t)) == Some(u);
        }
        if v: real :| source.Contains(v) && TimeBehind(rest, v) == Some(u) {
          var t := ChildTimes(c, window, v);
          assert TimeBehind(chain, t) == Some(u);
        }
      }
    }
  }

  lemma SourceIsNotEmpty(c: Contribution, window: Window)
    requires Selected(c, window)
    ensures !SelectedSourceWindow(c, window).value.IsEmpty()
  {
    hide MapWindow, IntersectHalfOpen;
    IntersectionExact(window, c.placement);
    EmptyHasNoTime(IntersectHalfOpen(window, c.placement).value);
    var t: real :| IntersectHalfOpen(window, c.placement).value.Contains(t);
    ParentTimes(c, window, t);
    EmptyHasNoTime(SelectedSourceWindow(c, window).value);
  }

  lemma ReachesSelected(chain: seq<Contribution>, window: Window, placement: Range)
    requires !window.IsEmpty()
    ensures Reaches(chain, window, placement) <==> ChainWindow(chain, window).Some? && Selects(ChainWindow(chain, window).value, placement)
  {
    hide IntersectHalfOpen, TimeBehind, ChainWindow;
    if t: real :| window.Contains(t) && EndsIn(chain, t, placement) {
      var u := TimeBehind(chain, t).value;
      ChainWindowExact(chain, window, u);
      IntersectionExact(ChainWindow(chain, window).value, placement);
    }
    if ChainWindow(chain, window).Some? && Selects(ChainWindow(chain, window).value, placement) {
      var common := IntersectHalfOpen(ChainWindow(chain, window).value, placement).value;
      IntersectionExact(ChainWindow(chain, window).value, placement);
      EmptyHasNoTime(common);
      var u: real :| common.Contains(u);
      ChainWindowExact(chain, window, u);
      var t: real :| window.Contains(t) && TimeBehind(chain, t) == Some(u);
      assert EndsIn(chain, t, placement);
    }
  }

  /** Behind any chain of nested clips, everything that can be heard at a grid time is reached exactly when the window
      goes through all clips and, behind them, keeps that time. */
  lemma ChainDecides(chain: seq<Contribution>, window: Window, grid: real)
    requires !window.IsEmpty()
    ensures KeepsBehind(chain, window, grid) <==> ChainWindow(chain, window).Some? && Keeping(ChainWindow(chain, window).value, grid)
  {
    hide Reaches, ChainWindow, Selects, Keeping;
    forall placement: Range
      ensures Reaches(chain, window, placement) <==> ChainWindow(chain, window).Some? && Selects(ChainWindow(chain, window).value, placement)
    {
      ReachesSelected(chain, window, placement);
    }
    if ChainWindow(chain, window).Some? {
      ChainWindowExact(chain, window, grid);
      KeepsExactly(ChainWindow(chain, window).value, grid);
    } else {
      var placement := Range(grid, 1.0);
      assert placement.Valid() && placement.Contains(grid) && !Reaches(chain, window, placement);
    }
  }

  /** The chain of nested clips leads to a contribution of the media, whatever the times. */
  ghost predicate Leads(p: Project, at: Place, chain: seq<Contribution>, c: Contribution, media: Media)
    decreases |chain|
  {
    && at in p.programs
    && if chain == [] then c in p.programs[at] && c.source == FromMedia(media) else
       chain[0] in p.programs[at] && chain[0].source.Nested? && Leads(p, chain[0].source.place, chain[1..], c, media)
  }

  lemma {:induction false} PlaysAlong(p: Project, at: Place, t: real, chain: seq<Contribution>, c: Contribution, media: Media)
    ensures PlaysAt(p, at, t, chain, c, media) <==> Leads(p, at, chain, c, media) && EndsIn(chain, t, c.placement)
    decreases |chain|
  {
    if chain != [] && chain[0].source.Nested? {
      PlaysAlong(p, chain[0].source.place, chain[0].sourceMap.At(t), chain[1..], c, media);
    }
  }

  /** A range plays a media component exactly when its window reaches one of its placements through some chain of clips. */
  lemma PlaysThroughChains(p: Project, at: Place, range: Range, media: Media)
    ensures PlaysIn(p, at, range, media)
            <==> exists chain: seq<Contribution>, c: Contribution :: Leads(p, at, chain, c, media) && Reaches(chain, FromHalfOpen(range), c.placement)
  {
    hide PlaysAt, Leads, EndsIn;
    if PlaysIn(p, at, range, media) {
      var t: real, chain: seq<Contribution>, c: Contribution :| range.Contains(t) && PlaysAt(p, at, t, chain, c, media);
      PlaysAlong(p, at, t, chain, c, media);
      assert FromHalfOpen(range).Contains(t);
    }
    if chain: seq<Contribution>, c: Contribution :| Leads(p, at, chain, c, media) && Reaches(chain, FromHalfOpen(range), c.placement) {
      var t: real :| FromHalfOpen(range).Contains(t) && EndsIn(chain, t, c.placement);
      PlaysAlong(p, at, t, chain, c, media);
      assert range.Contains(t);
    }
  }

  lemma {:induction false} HeardBehind(p: Project, at: Place, rate: int, sample: int, chain: seq<Contribution>, c: Contribution, media: Media)
    requires rate > 0 && HearsAt(p, at, rate, sample, chain, c, media)
    ensures Leads(p, at, chain, c, media) && c.placement.Contains(TimeOf(rate, FrameBehind(chain, rate, sample)))
    decreases |chain|
  {
    hide GridFrame;
    if chain != [] {
      HeardBehind(p, chain[0].source.place, rate, GridFrame(chain[0], rate, sample), chain[1..], c, media);
    }
  }

  /** The closure of a range has everything that is heard in it at a frame its window keeps behind the clips, and so
      everything when all nested clips take samples onto samples. */
  method CollectsHeard(p: Project, sequence: nat, output: nat, range: Range, rate: int)
    returns (error: Option<DependencyError>, closure: Closure)
    requires sequence in p.firstOutput && range.Valid() && rate > 0
    ensures error.None? <==> Admits(p, Place(sequence, output), FromHalfOpen(range), {}, 0)
    ensures error.None? ==>
              forall sample: int, chain: seq<Contribution>, c: Contribution, media: Media ::
                range.Contains(TimeOf(rate, sample)) && HearsAt(p, Place(sequence, output), rate, sample, chain, c, media)
                && (AllOnGrid(p, rate) || KeepsBehind(chain, FromHalfOpen(range), TimeOf(rate, FrameBehind(chain, rate, sample))))
                ==> media in closure.media
  {
    hide Admits, PlaysAt, HearsAt, OnGrid, KeepsBehind, TimeOf;
    error, closure := CompileDependencyClosure(p, sequence, Some(output), range);
    var at := Place(sequence, output);
    if error.None? {
      forall sample: int, chain: seq<Contribution>, c: Contribution, media: Media |
        range.Contains(TimeOf(rate, sample)) && HearsAt(p, at, rate, sample, chain, c, media)
        && (AllOnGrid(p, rate) || KeepsBehind(chain, FromHalfOpen(range), TimeOf(rate, FrameBehind(chain, rate, sample))))
        ensures media in closure.media
      {
        if AllOnGrid(p, rate) {
          HeardIsPlayed(p, at, rate, sample, chain, c, media);
        } else {
          KeptIsPlayed(p, at, range, rate, sample, chain, c, media);
        }
        assert PlaysIn(p, at, range, media);
      }
    }
  }

  lemma KeptIsPlayed(p: Project, at: Place, range: Range, rate: int, sample: int, chain: seq<Contribution>, c: Contribution, media: Media)
    requires rate > 0 && range.Valid() && HearsAt(p, at, rate, sample, chain, c, media)
    requires KeepsBehind(chain, FromHalfOpen(range), TimeOf(rate, FrameBehind(chain, rate, sample)))
    ensures PlaysIn(p, at, range, media)
  {
    hide HearsAt, PlaysIn, Reaches, Leads, TimeOf, FrameBehind;
    HeardBehind(p, at, rate, sample, chain, c, media);
    assert c.placement.Valid();
    PlaysThroughChains(p, at, range, media);
  }

  // ------------------------------------------------------------------ a project whose closure is too small

  const RATE := 48000

  const HALF_FRAME := 1.0 / 96000.0

  /** A clip in Sequence 1 that ends half a frame behind one second. */
  function ShortMedia(): Contribution {
    Contribution(1, Range(0.0, 1.0 + HALF_FRAME), AffineMap(0.0, 0.0, 1.0), Covering, FromMedia(Media(7, 0)))
  }

  /** Sequence 1 nested in Sequence 0, slipped by half a frame. */
  function SlippedClip(): Contribution {
    Contribution(0, Range(0.0, 2.0), AffineMap(0.0, HALF_FRAME, 1.0), Covering, Nested(Place(1, 0)))
  }

  function SlippedProject(): Project {
    Project(map[0 := Some(0), 1 := Some(0)], map[Place(0, 0) := [SlippedClip()], Place(1, 0) := [ShortMedia()]])
  }

  /** Sample 48000 of the output reads frame 48000 of the nested Sequence, which begins before the media ends. */
  lemma MediaIsHeard()
    ensures HearsAt(SlippedProject(), Place(0, 0), RATE, RATE, [SlippedClip()], ShortMedia(), Media(7, 0))
  {
    var c := SlippedClip();
    assert TimeOf(RATE, RATE) == 1.0;
    assert c.sourceMap.At(1.0) * RATE as real == 48000.5;
    assert GridFrame(c, RATE, RATE) == RATE;
  }

  lemma NothingNestedBelow(u: real, chain: seq<Contribution>)
    ensures Walk(SlippedProject(), Place(1, 0), u, chain).Some? <==> chain == []
  {}

  /** Every walk ends in the output or behind the slipped clip. */
  lemma Walks(t: real, chain: seq<Contribution>)
    requires Walk(SlippedProject(), Place(0, 0), t, chain).Some?
    ensures chain == [] || (chain == [SlippedClip()] && Walk(SlippedProject(), Place(0, 0), t, chain) == Some((Place(1, 0), t + HALF_FRAME)))
  {
    if chain != [] {
      NothingNestedBelow(SlippedClip().sourceMap.At(t), chain[1..]);
    }
  }

  /** No time of the second from one to two seconds maps into the media. */
  lemma MediaIsNotPlayed()
    ensures !PlaysIn(SlippedProject(), Place(0, 0), Range(1.0, 1.0), Media(7, 0))
  {
    hide Walk;
    var p, at, range := SlippedProject(), Place(0, 0), Range(1.0, 1.0);
    forall t: real, chain: seq<Contribution>, c: Contribution | range.Contains(t)
      ensures !PlaysAt(p, at, t, chain, c, Media(7, 0))
    {
      if Walk(p, at, t, chain).Some? {
        Walks(t, chain);
        EmptyWalk(p, at, t);
        assert SlippedClip().source != FromMedia(Media(7, 0)) && ShortMedia().placement.End() == 1.0 + HALF_FRAME;
      }
    }
  }

  lemma EmptyWalk(p: Project, at: Place, t: real)
    ensures Walk(p, at, t, []) == Some((at, t))
  {}

  lemma SlippedIsAdmitted()
    ensures Admits(SlippedProject(), Place(0, 0), FromHalfOpen(Range(1.0, 1.0)), {}, 0)
  {
    hide Walk;
    var p, at := SlippedProject(), Place(0, 0);
    forall t: real, chain: seq<Contribution>
      ensures FitsAt(p, at, t, chain, {}, 0)
    {
      if Walk(p, at, t, chain).Some? {
        Walks(t, chain);
      }
    }
  }

  /** The closure succeeds without a media component that the first sample of its range plays. */
  method LeavesOutHeardMedia() returns (error: Option<DependencyError>, closure: Closure)
    ensures error.None? && Media(7, 0) !in closure.media
    ensures Range(1.0, 1.0).Contains(TimeOf(RATE, RATE))
    ensures HearsAt(SlippedProject(), Place(0, 0), RATE, RATE, [SlippedClip()], ShortMedia(), Media(7, 0))
  {
    hide Admits, PlaysIn, HearsAt;
    error, closure := CompileDependencyClosure(SlippedProject(), 0, Some(0), Range(1.0, 1.0));
    SlippedIsAdmitted();
    MediaIsNotPlayed();
    MediaIsHeard();
    assert TimeOf(RATE, RATE) == 1.0;
  }
}
