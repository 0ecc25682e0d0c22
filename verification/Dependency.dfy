/** Exact windows of time and their way through affine source maps. */
module DependencyWindows {
  import opened Frames

  /** A half-open placement on a Sequence. */
  datatype Range = Range(start: real, duration: real) {
    predicate Valid() { duration >= 0.0 }

    function End(): real { start + duration }

    predicate Contains(t: real) { start <= t < End() }
  }

  /** Exact source time of a Sequence time. */
  datatype AffineMap = AffineMap(sequenceStart: real, sourceOrigin: real, scale: real) {
    function At(t: real): real { sourceOrigin + (t - sequenceStart) * scale }
  }

  datatype Window = Window(lower: real, upper: real, lowerInclusive: bool, upperInclusive: bool) {
    predicate Contains(t: real) {
      && (lower < t || (lower == t && lowerInclusive))
      && (t < upper || (t == upper && upperInclusive))
    }

    predicate IsEmpty() {
      lower > upper || (lower == upper && !(lowerInclusive && upperInclusive))
    }
  }

  function FromHalfOpen(range: Range): Window {
    Window(range.start, range.End(), true, false)
  }

  function IntersectHalfOpen(w: Window, range: Range): Option<Window> {
    var lowerInclusive := if w.lower < range.start then true else w.lowerInclusive;
    var lower := if w.lower < range.start then range.start else w.lower;
    var end := range.End();
    var upper := if w.upper > end then end else w.upper;
    var upperInclusive := if w.upper < end then w.upperInclusive else false;
    var intersection := Window(lower, upper, lowerInclusive, upperInclusive);
    if intersection.IsEmpty() then None else Some(intersection)
  }

  function MapWindow(w: Window, m: AffineMap): Window {
    var lower, upper := m.At(w.lower), m.At(w.upper);
    if m.scale < 0.0 then Window(upper, lower, w.upperInclusive, w.lowerInclusive)
    else if m.scale == 0.0 then Window(lower, lower, true, true)
    else Window(lower, upper, w.lowerInclusive, w.upperInclusive)
  }

  /** The emptiness test is exact. */
  lemma EmptyHasNoTime(w: Window)
    ensures w.IsEmpty() <==> forall t: real :: !w.Contains(t)
  {
    if !w.IsEmpty() {
      var t := if w.lower == w.upper then w.lower else (w.lower + w.upper) / 2.0;
      assert w.Contains(t);
    }
  }

  lemma FromHalfOpenExact(range: Range, t: real)
    ensures FromHalfOpen(range).Contains(t) <==> range.Contains(t)
  {}

  /** Intersection keeps exactly the common times, and reports none exactly when there are none. */
  lemma IntersectionExact(w: Window, range: Range)
    ensures var common := IntersectHalfOpen(w, range);
            && (common.None? <==> forall t: real :: !(w.Contains(t) && range.Contains(t)))
            && (common.Some? ==> !common.value.IsEmpty() && forall t: real :: common.value.Contains(t) <==> w.Contains(t) && range.Contains(t))
  {
    var lower := if w.lower < range.start then range.start else w.lower;
    var upper := if w.upper > range.End() then range.End() else w.upper;
    var both := Window(lower, upper, if w.lower < range.start then true else w.lowerInclusive, if w.upper < range.End() then w.upperInclusive else false);
    assert forall t: real :: both.Contains(t) <==> w.Contains(t) && range.Contains(t);
    EmptyHasNoTime(both);
  }

  lemma ScaleKeepsOrder(a: real, b: real, scale: real)
    ensures scale > 0.0 ==> (a < b <==> a * scale < b * scale)
    ensures scale < 0.0 ==> (a < b <==> a * scale > b * scale)
    ensures scale != 0.0 ==> (a == b <==> a * scale == b * scale)
  {
    assert (b - a) * scale == b * scale - a * scale;
  }

  lemma AtKeepsOrder(m: AffineMap, a: real, b: real)
    ensures m.scale > 0.0 ==> (a < b <==> m.At(a) < m.At(b))
    ensures m.scale < 0.0 ==> (a < b <==> m.At(a) > m.At(b))
    ensures m.scale != 0.0 ==> (a == b <==> m.At(a) == m.At(b))
  {
    ScaleKeepsOrder(a - m.sequenceStart, b - m.sequenceStart, m.scale);
  }

  /** The Sequence time of a source time. */
  function Before(m: AffineMap, u: real): real
    requires m.scale != 0.0
  {
    m.sequenceStart + (u - m.sourceOrigin) / m.scale
  }

  lemma BeforeInverts(m: AffineMap, u: real)
    requires m.scale != 0.0
    ensures m.At(Before(m, u)) == u
  {
    assert (u - m.sourceOrigin) / m.scale * m.scale == u - m.sourceOrigin;
  }

  /** A frozen map has one source time. */
  lemma FrozenAt(m: AffineMap, t: real)
    requires m.scale == 0.0
    ensures m.At(t) == m.sourceOrigin
  {
    assert (t - m.sequenceStart) * 0.0 == 0.0;
  }

  lemma MapsInside(w: Window, m: AffineMap, t: real)
    requires w.Contains(t)
    ensures MapWindow(w, m).Contains(m.At(t))
  {
    AtKeepsOrder(m, w.lower, t);
    AtKeepsOrder(m, t, w.upper);
    if m.scale == 0.0 {
      FrozenAt(m, t);
      FrozenAt(m, w.lower);
    }
  }

  /** A mapped window holds exactly the images of its times, forward, reversed or frozen. */
  lemma MapExact(w: Window, m: AffineMap, u: real) returns (t: real)
    requires !w.IsEmpty() && MapWindow(w, m).Contains(u)
    ensures w.Contains(t) && m.At(t) == u
  {
    if m.scale == 0.0 {
      EmptyHasNoTime(w);
      t :| w.Contains(t);
      FrozenAt(m, t);
      FrozenAt(m, w.lower);
    } else {
      t := Before(m, u);
      BeforeInverts(m, u);
      AtKeepsOrder(m, w.lower, t);
      AtKeepsOrder(m, t, w.upper);
    }
  }
}

/** The closure of Sequences and media that one window of a public output depends on. */
module Dependency {
  import opened Frames
  import opened DependencyWindows
  import opened SourceFrames

  const MAX_DEPTH: nat := 16

  datatype Media = Media(asset: nat, component: nat)

  /** A public output of a Sequence. */
  datatype Place = Place(sequence: nat, output: nat)

  datatype Source = FromMedia(media: Media) | Nested(place: Place)

  datatype Contribution = Contribution(edit: nat, placement: Range, sourceMap: AffineMap, boundary: Boundary, source: Source)

  /** Compiled contributions of every output, and the first output of every Sequence. */
  datatype Project = Project(firstOutput: map<nat, Option<nat>>, programs: map<Place, seq<Contribution>>)

  datatype DependencyError =
    | DuplicateSequence
    | Compile
    | MissingNestedSequence
    | NestedCycle
    | NestedDepthExceeded
    | MissingProgramOutput
    | InconsistentSelection
    | InconsistentProgramEvidence

  datatype Key = Key(place: Place, window: Window)

  datatype Closure = Closure(sequences: set<nat>, media: set<Media>, programs: map<Key, seq<Contribution>>)

  predicate Selected(c: Contribution, window: Window) { IntersectHalfOpen(window, c.placement).Some? }

  function SelectedSourceWindow(c: Contribution, window: Window): Option<Window> {
    var common := IntersectHalfOpen(window, c.placement);
    if common.None? then None else Some(MapWindow(common.value, c.sourceMap))
  }

  function SelectProgramWindow(program: seq<Contribution>, window: Window): (selected: seq<Contribution>)
    ensures forall c :: c in selected <==> c in program && Selected(c, window)
  {
    if program == [] then [] else
    (if Selected(program[0], window) then [program[0]] else []) + SelectProgramWindow(program[1..], window)
  }

  /** Selection keeps the order of the contributions. */
  lemma {:induction false} SelectsInOrder(first: seq<Contribution>, rest: seq<Contribution>, window: Window)
    ensures SelectProgramWindow(first + rest, window) == SelectProgramWindow(first, window) + SelectProgramWindow(rest, window)
    ensures |first| == 1 ==> SelectProgramWindow(first, window) == if Selected(first[0], window) then first else []
    decreases |first|
  {
    hide Selected;
    if first == [] {
      assert first + rest == rest;
    } else {
      SelectsInOrder(first[1..], rest, window);
      assert (first + rest)[1..] == first[1..] + rest;
    }
  }

  // ------------------------------------------------------------------ chains of nested clips

  /** Where time `t` of an output ends up after going through a chain of nested clips, each placed at the time it is entered. */
  ghost function Walk(p: Project, at: Place, t: real, chain: seq<Contribution>): Option<(Place, real)>
    decreases |chain|
  {
    if chain == [] then Some((at, t)) else
    var c := chain[0];
    if at in p.programs && c in p.programs[at] && c.placement.Contains(t) && c.source.Nested?
    then Walk(p, c.source.place, c.sourceMap.At(t), chain[1..]) else None
  }

  /** The place behind the first `k` clips of a chain. */
  ghost function PlaceOf(at: Place, chain: seq<Contribution>, k: nat): Place
    requires k <= |chain| && forall c :: c in chain ==> c.source.Nested?
  {
    if k == 0 then at else chain[k - 1].source.place
  }

  ghost predicate NestedChain(chain: seq<Contribution>) {
    forall c :: c in chain ==> c.source.Nested?
  }

  /** The end of a chain exists, is not too deep, and its Sequence occurs nowhere before on the way. */
  ghost predicate Fits(p: Project, at: Place, chain: seq<Contribution>, stack: set<nat>, depth: nat)
    requires NestedChain(chain)
  {
    var end := PlaceOf(at, chain, |chain|);
    && depth + |chain| <= MAX_DEPTH
    && end.sequence in p.firstOutput && end in p.programs
    && end.sequence !in stack
    && forall k: nat :: k < |chain| ==> PlaceOf(at, chain, k).sequence != end.sequence
  }

  ghost predicate FitsAt(p: Project, at: Place, t: real, chain: seq<Contribution>, stack: set<nat>, depth: nat) {
    Walk(p, at, t, chain).Some? ==> NestedChain(chain) && Fits(p, at, chain, stack, depth)
  }

  /** Every chain that some time of the window passes through can be followed. */
  ghost predicate Admits(p: Project, at: Place, window: Window, stack: set<nat>, depth: nat) {
    && Fits(p, at, [], stack, depth)
    && forall t: real, chain: seq<Contribution> | window.Contains(t) :: FitsAt(p, at, t, chain, stack, depth)
  }

  ghost predicate PlaysAt(p: Project, at: Place, t: real, chain: seq<Contribution>, c: Contribution, media: Media) {
    var end := Walk(p, at, t, chain);
    && end.Some? && end.value.0 in p.programs && c in p.programs[end.value.0]
    && c.placement.Contains(end.value.1) && c.source == FromMedia(media)
  }

  /** Some time of the window maps through a chain of nested clips into a placement of the media component. */
  ghost predicate Plays(p: Project, at: Place, window: Window, media: Media) {
    exists t: real, chain: seq<Contribution>, c: Contribution :: window.Contains(t) && PlaysAt(p, at, t, chain, c, media)
  }

  ghost predicate VisitsAt(p: Project, at: Place, t: real, chain: seq<Contribution>, sequence: nat) {
    Walk(p, at, t, chain).Some? && Walk(p, at, t, chain).value.0.sequence == sequence
  }

  /** Some time of the window passes through the Sequence. */
  ghost predicate Visits(p: Project, at: Place, window: Window, sequence: nat) {
    at.sequence == sequence || exists t: real, chain: seq<Contribution> :: window.Contains(t) && VisitsAt(p, at, t, chain, sequence)
  }

  // ------------------------------------------------------------------ one level of nesting

  lemma ChildTimes(c: Contribution, window: Window, u: real) returns (t: real)
    requires Selected(c, window) && SelectedSourceWindow(c, window).value.Contains(u)
    ensures window.Contains(t) && c.placement.Contains(t) && c.sourceMap.At(t) == u
  {
    IntersectionExact(window, c.placement);
    t := MapExact(IntersectHalfOpen(window, c.placement).value, c.sourceMap, u);
  }

  lemma ParentTimes(c: Contribution, window: Window, t: real)
    requires window.Contains(t) && c.placement.Contains(t)
    ensures Selected(c, window) && SelectedSourceWindow(c, window).value.Contains(c.sourceMap.At(t))
  {
    IntersectionExact(window, c.placement);
    MapsInside(IntersectHalfOpen(window, c.placement).value, c.sourceMap, t);
  }

  /** What one selected contribution adds to the closure. */
  ghost predicate Brings(p: Project, c: Contribution, window: Window, media: Media)
    requires Selected(c, window)
  {
    match c.source
    case FromMedia(m) => m == media
    case Nested(place) => Plays(p, place, SelectedSourceWindow(c, window).value, media)
  }

  lemma PlaysHere(p: Project, at: Place, window: Window, media: Media)
    requires at in p.programs && Plays(p, at, window, media)
    ensures exists c :: c in p.programs[at] && Selected(c, window) && Brings(p, c, window, media)
  {
    var t: real, chain: seq<Contribution>, c: Contribution :| window.Contains(t) && PlaysAt(p, at, t, chain, c, media);
    var first := if chain == [] then c else chain[0];
    ParentTimes(first, window, t);
    if chain != [] {
      assert PlaysAt(p, first.source.place, first.sourceMap.At(t), chain[1..], c, media);
    }
    assert Brings(p, first, window, media);
  }

  lemma BringsPlays(p: Project, at: Place, window: Window, c: Contribution, media: Media)
    requires at in p.programs && c in p.programs[at] && Selected(c, window) && Brings(p, c, window, media)
    ensures Plays(p, at, window, media)
  {
    match c.source {
      case FromMedia(_) =>
        IntersectionExact(window, c.placement);
        var common := IntersectHalfOpen(window, c.placement).value;
        EmptyHasNoTime(common);
        var t: real :| common.Contains(t);
        assert PlaysAt(p, at, t, [], c, media);
      case Nested(place) =>
        var u: real, chain: seq<Contribution>, d: Contribution :|
          SelectedSourceWindow(c, window).value.Contains(u) && PlaysAt(p, place, u, chain, d, media);
        var t := ChildTimes(c, window, u);
        assert ([c] + chain)[1..] == chain;
        assert PlaysAt(p, at, t, [c] + chain, d, media);
    }
  }

  lemma VisitsHere(p: Project, at: Place, window: Window, sequence: nat)
    requires at in p.programs && Visits(p, at, window, sequence) && sequence != at.sequence
    ensures exists c :: c in p.programs[at] && Selected(c, window) && c.source.Nested? && SelectedSourceWindow(c, window).Some? &&
              Visits(p, c.source.place, SelectedSourceWindow(c, window).value, sequence)
  {
    var t: real, chain: seq<Contribution> :| window.Contains(t) && VisitsAt(p, at, t, chain, sequence);
    ParentTimes(chain[0], window, t);
    assert VisitsAt(p, chain[0].source.place, chain[0].sourceMap.At(t), chain[1..], sequence);
  }

  lemma VisitsThere(p: Project, at: Place, window: Window, c: Contribution, sequence: nat)
    requires at in p.programs && c in p.programs[at] && Selected(c, window) && c.source.Nested?
    requires Visits(p, c.source.place, SelectedSourceWindow(c, window).value, sequence)
    ensures Visits(p, at, window, sequence)
  {
    var source := SelectedSourceWindow(c, window).value;
    var u: real, chain: seq<Contribution>;
    if c.source.place.sequence == sequence {
      IntersectionExact(window, c.placement);
      var common := IntersectHalfOpen(window, c.placement).value;
      EmptyHasNoTime(common);
      var t: real :| common.Contains(t);
      ParentTimes(c, window, t);
      u, chain := c.sourceMap.At(t), [];
    } else {
      u, chain :| source.Contains(u) && VisitsAt(p, c.source.place, u, chain, sequence);
    }
    var t := ChildTimes(c, window, u);
    assert ([c] + chain)[1..] == chain;
    assert VisitsAt(p, at, t, [c] + chain, sequence);
  }

  ghost predicate ChildAdmits(p: Project, at: Place, c: Contribution, window: Window, stack: set<nat>, depth: nat)
    requires Selected(c, window) && c.source.Nested?
  {
    Admits(p, c.source.place, SelectedSourceWindow(c, window).value, stack + {at.sequence}, depth + 1)
  }

  /** One clip in front of a chain keeps or breaks its fit exactly as the Sequence that holds the clip is on the stack. */
  lemma FitsBehind(p: Project, at: Place, c: Contribution, rest: seq<Contribution>, stack: set<nat>, depth: nat)
    requires c.source.Nested? && NestedChain(rest)
    ensures NestedChain([c] + rest)
    ensures Fits(p, at, [c] + rest, stack, depth) <==> Fits(p, c.source.place, rest, stack + {at.sequence}, depth + 1)
  {
    var chain := [c] + rest;
    assert forall k :: 0 < k <= |chain| ==> PlaceOf(at, chain, k) == PlaceOf(c.source.place, rest, k - 1);
    if Fits(p, at, chain, stack, depth) {
      assert PlaceOf(at, chain, 0).sequence != PlaceOf(at, chain, |chain|).sequence;
      forall k: nat | k < |rest|
        ensures PlaceOf(c.source.place, rest, k).sequence != PlaceOf(c.source.place, rest, |rest|).sequence
      {
        assert PlaceOf(at, chain, k + 1).sequence != PlaceOf(at, chain, |chain|).sequence;
      }
    }
    if Fits(p, c.source.place, rest, stack + {at.sequence}, depth + 1) {
      forall k: nat | k < |chain|
        ensures PlaceOf(at, chain, k).sequence != PlaceOf(at, chain, |chain|).sequence
      {
        assert k == 0 || PlaceOf(c.source.place, rest, k - 1).sequence != PlaceOf(c.source.place, rest, |rest|).sequence;
      }
    }
  }

  // ------------------------------------------------------------------ windows behind a chain

  /** The output and the window behind a chain of nested clips, each of them selected in the window in front of it. */
  ghost function Follow(p: Project, at: Place, window: Window, chain: seq<Contribution>): Option<Key>
    decreases |chain|
  {
    if chain == [] then Some(Key(at, window)) else
    var c := chain[0];
    if at in p.programs && c in p.programs[at] && c.source.Nested? && Selected(c, window)
    then Follow(p, c.source.place, SelectedSourceWindow(c, window).value, chain[1..]) else None
  }

  /** Some chain leads to this output with this window. */
  ghost predicate Reached(p: Project, at: Place, window: Window, key: Key) {
    exists chain: seq<Contribution> :: Follow(p, at, window, chain) == Some(key)
  }

  ghost predicate Behind(p: Project, c: Contribution, window: Window, key: Key)
    requires Selected(c, window)
  {
    c.source.Nested? && Reached(p, c.source.place, SelectedSourceWindow(c, window).value, key)
  }

  lemma FollowsFirst(p: Project, at: Place, window: Window, c: Contribution, rest: seq<Contribution>)
    requires at in p.programs && c in p.programs[at] && Selected(c, window) && c.source.Nested?
    ensures Follow(p, at, window, [c] + rest) == Follow(p, c.source.place, SelectedSourceWindow(c, window).value, rest)
  {
    hide IntersectHalfOpen, MapWindow;
    assert ([c] + rest)[1..] == rest;
  }

  lemma {:induction false} FollowedIsNested(p: Project, at: Place, window: Window, chain: seq<Contribution>)
    requires Follow(p, at, window, chain).Some?
    ensures NestedChain(chain) && Follow(p, at, window, chain).value.place == PlaceOf(at, chain, |chain|)
    decreases |chain|
  {
    hide IntersectHalfOpen, MapWindow;
    if chain != [] {
      var c, rest := chain[0], chain[1..];
      FollowedIsNested(p, c.source.place, SelectedSourceWindow(c, window).value, rest);
      assert forall d :: d in chain ==> d == c || d in rest;
    }
  }

  lemma ReachedInProgram(p: Project, at: Place, window: Window, program: seq<Contribution>, key: Key)
    requires at in p.programs && program == SelectProgramWindow(p.programs[at], window)
    ensures AllSelected(program, window) && (Reached(p, at, window, key) <==> key == Key(at, window) || SomeBehind(p, program, window, key))
  {
    hide IntersectHalfOpen, MapWindow;
    if Reached(p, at, window, key) {
      var chain: seq<Contribution> :| Follow(p, at, window, chain) == Some(key);
      if chain != [] {
        assert Follow(p, chain[0].source.place, SelectedSourceWindow(chain[0], window).value, chain[1..]) == Some(key);
        assert chain[0] in program && Behind(p, chain[0], window, key);
      }
    }
    assert Follow(p, at, window, []) == Some(Key(at, window));
    if c :| c in program && Behind(p, c, window, key) {
      var rest: seq<Contribution> :| Follow(p, c.source.place, SelectedSourceWindow(c, window).value, rest) == Some(key);
      FollowsFirst(p, at, window, c, rest);
    }
  }

  // ------------------------------------------------------------------ what is wrong

  /** The end of the chain is on the stack or was passed on the way. */
  ghost predicate Revisits(at: Place, chain: seq<Contribution>, stack: set<nat>)
    requires NestedChain(chain)
  {
    var end := PlaceOf(at, chain, |chain|).sequence;
    end in stack || exists k: nat :: k < |chain| && PlaceOf(at, chain, k).sequence == end
  }

  /** A chain that some window leads through ends where the error says: at a missing Sequence, one level too deep, at a Sequence
      again, or at an output that does not compile; the first of these that applies. */
  ghost predicate FaultAt(p: Project, at: Place, window: Window, chain: seq<Contribution>, stack: set<nat>, depth: nat, error: DependencyError) {
    && Follow(p, at, window, chain).Some? && NestedChain(chain) &&
    var end := PlaceOf(at, chain, |chain|);
    match error
    case MissingNestedSequence => end.sequence !in p.firstOutput
    case NestedDepthExceeded => end.sequence in p.firstOutput && depth + |chain| == 17
    case NestedCycle => end.sequence in p.firstOutput && depth + |chain| <= 16 && Revisits(at, chain, stack)
    case Compile => end.sequence in p.firstOutput && depth + |chain| <= 16 && !Revisits(at, chain, stack) && end !in p.programs
    case _ => false
  }

  ghost predicate Faulty(p: Project, at: Place, window: Window, stack: set<nat>, depth: nat, error: DependencyError) {
    exists chain: seq<Contribution> :: FaultAt(p, at, window, chain, stack, depth, error)
  }

  lemma FaultHere(p: Project, at: Place, window: Window, stack: set<nat>, depth: nat)
    requires at.sequence in p.firstOutput && depth <= MAX_DEPTH + 1
    ensures depth > MAX_DEPTH ==> Faulty(p, at, window, stack, depth, NestedDepthExceeded)
    ensures depth <= MAX_DEPTH && at.sequence in stack ==> Faulty(p, at, window, stack, depth, NestedCycle)
    ensures depth <= MAX_DEPTH && at.sequence !in stack && at !in p.programs ==> Faulty(p, at, window, stack, depth, Compile)
  {
    var here: seq<Contribution> := [];
    assert Follow(p, at, window, here).Some? && NestedChain(here) && PlaceOf(at, here, 0) == at;
    if depth > MAX_DEPTH {
      assert FaultAt(p, at, window, here, stack, depth, NestedDepthExceeded);
    } else if at.sequence in stack {
      assert FaultAt(p, at, window, here, stack, depth, NestedCycle);
    } else if at !in p.programs {
      assert FaultAt(p, at, window, here, stack, depth, Compile);
    }
  }

  lemma MissingBehind(p: Project, at: Place, window: Window, c: Contribution, stack: set<nat>, depth: nat)
    requires at in p.programs && c in p.programs[at] && Selected(c, window) && c.source.Nested? && c.source.place.sequence !in p.firstOutput
    ensures Faulty(p, at, window, stack, depth, MissingNestedSequence)
  {
    hide IntersectHalfOpen, MapWindow;
    FollowsFirst(p, at, window, c, []);
    assert [c] + [] == [c];
    assert FaultAt(p, at, window, [c], stack, depth, MissingNestedSequence);
  }

  /** What is wrong behind a clip is wrong here. */
  lemma FaultBehind(p: Project, at: Place, window: Window, c: Contribution, stack: set<nat>, depth: nat, error: DependencyError)
    requires at in p.programs && c in p.programs[at] && Selected(c, window) && c.source.Nested?
    requires Faulty(p, c.source.place, SelectedSourceWindow(c, window).value, stack + {at.sequence}, depth + 1, error)
    ensures Faulty(p, at, window, stack, depth, error)
  {
    hide IntersectHalfOpen, MapWindow, Revisits;
    var source := SelectedSourceWindow(c, window).value;
    var rest: seq<Contribution> :| FaultAt(p, c.source.place, source, rest, stack + {at.sequence}, depth + 1, error);
    FollowsFirst(p, at, window, c, rest);
    FollowedIsNested(p, at, window, [c] + rest);
    FollowedIsNested(p, c.source.place, source, rest);
    RevisitsBehind(at, c, rest, stack);
    assert FaultAt(p, at, window, [c] + rest, stack, depth, error);
  }

  lemma RevisitsBehind(at: Place, c: Contribution, rest: seq<Contribution>, stack: set<nat>)
    requires c.source.Nested? && NestedChain(rest) && NestedChain([c] + rest)
    ensures PlaceOf(at, [c] + rest, |rest| + 1) == PlaceOf(c.source.place, rest, |rest|)
    ensures Revisits(at, [c] + rest, stack) <==> Revisits(c.source.place, rest, stack + {at.sequence})
  {
    var chain := [c] + rest;
    assert forall k :: 0 < k <= |chain| ==> PlaceOf(at, chain, k) == PlaceOf(c.source.place, rest, k - 1);
    var end := PlaceOf(at, chain, |chain|).sequence;
    assert PlaceOf(at, chain, 0) == at;
    if k: nat :| k < |rest| && PlaceOf(c.source.place, rest, k).sequence == end {
      assert PlaceOf(at, chain, k + 1).sequence == end;
    }
    if k: nat :| k < |chain| && PlaceOf(at, chain, k).sequence == end && end !in stack + {at.sequence} {
      assert k > 0 && PlaceOf(c.source.place, rest, k - 1).sequence == end;
    }
  }

  lemma AdmitsFromChildren(p: Project, at: Place, window: Window, stack: set<nat>, depth: nat)
    requires at in p.programs && Fits(p, at, [], stack, depth)
    requires forall c :: c in p.programs[at] && Selected(c, window) && c.source.Nested? ==> ChildAdmits(p, at, c, window, stack, depth)
    ensures Admits(p, at, window, stack, depth)
  {
    hide Fits, Walk;
    forall t: real, chain: seq<Contribution> | window.Contains(t)
      ensures FitsAt(p, at, t, chain, stack, depth)
    {
      if chain != [] && Walk(p, at, t, chain).Some? {
        FirstClip(p, at, t, chain);
        var c, rest := chain[0], chain[1..];
        ParentTimes(c, window, t);
        assert ChildAdmits(p, at, c, window, stack, depth);
        assert FitsAt(p, c.source.place, c.sourceMap.At(t), rest, stack + {at.sequence}, depth + 1);
        FitsBehind(p, at, c, rest, stack, depth);
        assert chain == [c] + rest;
      }
    }
  }

  lemma FirstClip(p: Project, at: Place, t: real, chain: seq<Contribution>)
    requires chain != [] && Walk(p, at, t, chain).Some?
    ensures at in p.programs && chain[0] in p.programs[at] && chain[0].placement.Contains(t) && chain[0].source.Nested?
    ensures Walk(p, chain[0].source.place, chain[0].sourceMap.At(t), chain[1..]) == Walk(p, at, t, chain)
  {}

  lemma FollowsClip(p: Project, at: Place, t: real, c: Contribution, rest: seq<Contribution>)
    requires at in p.programs && c in p.programs[at] && c.placement.Contains(t) && c.source.Nested?
    ensures Walk(p, at, t, [c] + rest) == Walk(p, c.source.place, c.sourceMap.At(t), rest)
  {
    assert ([c] + rest)[1..] == rest;
  }

  lemma ChildrenFromAdmits(p: Project, at: Place, window: Window, c: Contribution, stack: set<nat>, depth: nat)
    requires at in p.programs && c in p.programs[at] && Selected(c, window) && c.source.Nested?
    requires Admits(p, at, window, stack, depth)
    ensures ChildAdmits(p, at, c, window, stack, depth)
  {
    hide Fits, Walk;
    var source := SelectedSourceWindow(c, window).value;
    var inner, deeper := stack + {at.sequence}, depth + 1;
    forall u: real, rest: seq<Contribution> | source.Contains(u)
      ensures FitsAt(p, c.source.place, u, rest, inner, deeper)
    {
      var t := ChildTimes(c, window, u);
      FollowsClip(p, at, t, c, rest);
      assert FitsAt(p, at, t, [c] + rest, stack, depth);
      if Walk(p, c.source.place, u, rest).Some? {
        assert forall d :: d in rest ==> d in [c] + rest;
        FitsBehind(p, at, c, rest, stack, depth);
      }
    }
    EntersChild(p, at, window, c, stack, depth);
  }

  lemma EntersChild(p: Project, at: Place, window: Window, c: Contribution, stack: set<nat>, depth: nat)
    requires at in p.programs && c in p.programs[at] && Selected(c, window) && c.source.Nested?
    requires Admits(p, at, window, stack, depth)
    ensures Fits(p, c.source.place, [], stack + {at.sequence}, depth + 1)
  {
    hide Fits;
    IntersectionExact(window, c.placement);
    var common := IntersectHalfOpen(window, c.placement).value;
    EmptyHasNoTime(common);
    var t: real :| common.Contains(t);
    FollowsClip(p, at, t, c, []);
    assert [c] + [] == [c];
    assert FitsAt(p, at, t, [c], stack, depth);
    FitsBehind(p, at, c, [], stack, depth);
  }

  // ------------------------------------------------------------------ collection

  /** Every stored Program is the selection its key names. */
  ghost predicate Evidence(p: Project, closure: Closure) {
    forall key :: key in closure.programs ==> key.place in p.programs && closure.programs[key] == SelectProgramWindow(p.programs[key.place], key.window)
  }

  /** What a finished collection added. */
  ghost predicate Collected(p: Project, at: Place, window: Window, before: Closure, after: Closure) {
    && (forall media :: media in after.media <==> media in before.media || Plays(p, at, window, media))
    && (forall sequence :: sequence in after.sequences <==> sequence in before.sequences || Visits(p, at, window, sequence))
    && (forall key :: key in after.programs <==> key in before.programs || Reached(p, at, window, key))
  }

  /** Collect one output over one window, depth first. It succeeds exactly when every chain of nested clips that some
      time of the window passes through can be followed, and then the closure gained exactly what those times reach. */
  method Collect(p: Project, at: Place, window: Window, stack: set<nat>, depth: nat, before: Closure)
    returns (error: Option<DependencyError>, closure: Closure)
    requires at.sequence in p.firstOutput && depth <= MAX_DEPTH + 1 && Evidence(p, before)
    ensures Evidence(p, closure)
    ensures error.None? <==> Admits(p, at, window, stack, depth)
    ensures error.None? ==> Collected(p, at, window, before, closure)
    ensures error.Some? ==> Faulty(p, at, window, stack, depth, error.value)
    decreases MAX_DEPTH + 1 - depth, 1
  {
    hide Admits, Collected, Faulty;
    closure := before;
    FaultHere(p, at, window, stack, depth);
    if depth > MAX_DEPTH {
      FitsFirst(p, at, window, stack, depth);
      return Some(NestedDepthExceeded), closure;
    }
    if at.sequence in stack {
      FitsFirst(p, at, window, stack, depth);
      return Some(NestedCycle), closure;
    }
    closure := closure.(sequences := closure.sequences + {at.sequence});
    if at !in p.programs {
      FitsFirst(p, at, window, stack, depth);
      return Some(Compile), closure;
    }
    var program := SelectProgramWindow(p.programs[at], window);
    var key := Key(at, window);
    if key in closure.programs {
      if closure.programs[key] != program {
        return Some(InconsistentProgramEvidence), closure;
      }
      program := closure.programs[key];
    } else {
      closure := closure.(programs := closure.programs[key := program]);
    }
    error, closure := CollectContributions(p, at, program, window, stack, depth, before, closure);
  }

  lemma FitsFirst(p: Project, at: Place, window: Window, stack: set<nat>, depth: nat)
    ensures Admits(p, at, window, stack, depth) ==> depth <= MAX_DEPTH && at.sequence !in stack && at in p.programs
  {}

  ghost predicate AllSelected(program: seq<Contribution>, window: Window) {
    forall c :: c in program ==> Selected(c, window)
  }

  ghost predicate SomeBrings(p: Project, program: seq<Contribution>, window: Window, media: Media)
    requires AllSelected(program, window)
  {
    exists c :: c in program && Brings(p, c, window, media)
  }

  ghost predicate SomeLeads(p: Project, program: seq<Contribution>, window: Window, sequence: nat)
    requires AllSelected(program, window)
  {
    exists c :: c in program && Leads(p, c, window, sequence)
  }

  /** What the first contributions of the program added. */
  ghost predicate Gathered(p: Project, at: Place, window: Window, done: seq<Contribution>, before: Closure, after: Closure)
    requires AllSelected(done, window)
  {
    && (forall media :: media in after.media <==> media in before.media || SomeBrings(p, done, window, media))
    && (forall sequence :: sequence in after.sequences <==>
          sequence in before.sequences || sequence == at.sequence || SomeLeads(p, done, window, sequence))
    && (forall key :: key in after.programs <==> key in before.programs || key == Key(at, window) || SomeBehind(p, done, window, key))
  }

  ghost predicate SomeBehind(p: Project, program: seq<Contribution>, window: Window, key: Key)
    requires AllSelected(program, window)
  {
    exists c :: c in program && Behind(p, c, window, key)
  }

  ghost predicate Leads(p: Project, c: Contribution, window: Window, sequence: nat)
    requires Selected(c, window)
  {
    c.source.Nested? && Visits(p, c.source.place, SelectedSourceWindow(c, window).value, sequence)
  }

  method CollectContributions(p: Project, at: Place, program: seq<Contribution>, window: Window, stack: set<nat>, depth: nat,
                              ghost before: Closure, entered: Closure)
    returns (error: Option<DependencyError>, closure: Closure)
    requires at in p.programs && program == SelectProgramWindow(p.programs[at], window)
    requires depth <= MAX_DEPTH && Fits(p, at, [], stack, depth) && Evidence(p, entered)
    requires entered.media == before.media && entered.sequences == before.sequences + {at.sequence}
    requires entered.programs.Keys == before.programs.Keys + {Key(at, window)}
    ensures Evidence(p, closure)
    ensures error.None? <==> Admits(p, at, window, stack, depth)
    ensures error.None? ==> Collected(p, at, window, before, closure)
    ensures error.Some? ==> Faulty(p, at, window, stack, depth, error.value)
    decreases MAX_DEPTH + 1 - depth, 0
  {
    hide Admits, Collected, Faulty, Fits, Evidence, Gathered, AllSelected, ChildrenAdmit, Selected, SelectedSourceWindow, SelectProgramWindow, ChildAdmits;
    closure := entered;
    NothingGathered(p, at, window, before, closure);
    for i := 0 to |program|
      invariant Evidence(p, closure)
      invariant AllSelected(program[..i], window)
      invariant Gathered(p, at, window, program[..i], before, closure)
      invariant ChildrenAdmit(p, at, program[..i], window, stack, depth)
    {
      var c := program[i];
      assert c in program && program[..i + 1] == program[..i] + [c];
      ghost var earlier := closure;
      match c.source {
        case FromMedia(media) =>
          closure := closure.(media := closure.media + {media});
          SameEvidence(p, earlier, closure);
          GathersMedia(p, at, window, program[..i], before, earlier, c, media);
          ChildAdded(p, at, program[..i], c, window, stack, depth);
        case Nested(place) =>
          NestedSelection(p, at, c, window, stack, depth);
          if place.sequence !in p.firstOutput {
            MissingBehind(p, at, window, c, stack, depth);
            return Some(MissingNestedSequence), closure;
          }
          var source := SelectedSourceWindow(c, window);
          if source.None? {
            return Some(InconsistentSelection), closure;
          }
          error, closure := Collect(p, place, source.value, stack + {at.sequence}, depth + 1, closure);
          if error.Some? {
            FaultBehind(p, at, window, c, stack, depth, error.value);
            return;
          }
          GathersChild(p, at, window, program[..i], before, earlier, c, closure);
          ChildAdded(p, at, program[..i], c, window, stack, depth);
      }
    }
    error := None;
    assert program[..|program|] == program;
    GatheredIsCollected(p, at, window, stack, depth, program, before, closure);
  }

  lemma NothingGathered(p: Project, at: Place, window: Window, before: Closure, entered: Closure)
    requires entered.media == before.media && entered.sequences == before.sequences + {at.sequence}
    requires entered.programs.Keys == before.programs.Keys + {Key(at, window)}
    ensures AllSelected([], window) && Gathered(p, at, window, [], before, entered)
    ensures forall stack, depth: nat :: ChildrenAdmit(p, at, [], window, stack, depth)
  {}

  ghost predicate ChildrenAdmit(p: Project, at: Place, done: seq<Contribution>, window: Window, stack: set<nat>, depth: nat)
    requires AllSelected(done, window)
  {
    forall c :: c in done && c.source.Nested? ==> ChildAdmits(p, at, c, window, stack, depth)
  }

  lemma ChildAdded(p: Project, at: Place, done: seq<Contribution>, c: Contribution, window: Window, stack: set<nat>, depth: nat)
    requires AllSelected(done, window) && ChildrenAdmit(p, at, done, window, stack, depth)
    requires Selected(c, window) && (c.source.Nested? ==> ChildAdmits(p, at, c, window, stack, depth))
    ensures AllSelected(done + [c], window) && ChildrenAdmit(p, at, done + [c], window, stack, depth)
  {
    hide Selected, ChildAdmits;
  }

  lemma SameEvidence(p: Project, earlier: Closure, after: Closure)
    requires earlier.programs == after.programs
    ensures Evidence(p, earlier) == Evidence(p, after)
  {}

  lemma NestedSelection(p: Project, at: Place, c: Contribution, window: Window, stack: set<nat>, depth: nat)
    requires at in p.programs && c in p.programs[at] && Selected(c, window) && c.source.Nested?
    ensures SelectedSourceWindow(c, window).Some?
    ensures Admits(p, at, window, stack, depth) ==>
              && c.source.place.sequence in p.firstOutput
              && Admits(p, c.source.place, SelectedSourceWindow(c, window).value, stack + {at.sequence}, depth + 1)
    ensures ChildAdmits(p, at, c, window, stack, depth) == Admits(p, c.source.place, SelectedSourceWindow(c, window).value, stack + {at.sequence}, depth + 1)
  {
    if Admits(p, at, window, stack, depth) {
      ChildrenFromAdmits(p, at, window, c, stack, depth);
    }
  }

  lemma GathersMedia(p: Project, at: Place, window: Window, done: seq<Contribution>, before: Closure, earlier: Closure, c: Contribution, media: Media)
    requires AllSelected(done, window) && Selected(c, window) && c.source == FromMedia(media)
    requires Gathered(p, at, window, done, before, earlier)
    ensures AllSelected(done + [c], window)
    ensures Gathered(p, at, window, done + [c], before, earlier.(media := earlier.media + {media}))
  {
    hide Selected, SomeBrings, SomeLeads, SomeBehind;
    AddsOne(p, window, done, c);
  }

  lemma GathersChild(p: Project, at: Place, window: Window, done: seq<Contribution>, before: Closure, earlier: Closure, c: Contribution, after: Closure)
    requires AllSelected(done, window) && Selected(c, window) && c.source.Nested?
    requires Gathered(p, at, window, done, before, earlier)
    requires SelectedSourceWindow(c, window).Some? && Collected(p, c.source.place, SelectedSourceWindow(c, window).value, earlier, after)
    ensures AllSelected(done + [c], window)
    ensures Gathered(p, at, window, done + [c], before, after)
  {
    hide Selected, SelectedSourceWindow, Plays, Visits, Reached, SomeBrings, SomeLeads, SomeBehind;
    AddsOne(p, window, done, c);
  }

  lemma AddsOne(p: Project, window: Window, done: seq<Contribution>, c: Contribution)
    requires AllSelected(done, window) && Selected(c, window)
    ensures AllSelected(done + [c], window)
    ensures forall m :: SomeBrings(p, done + [c], window, m) <==> SomeBrings(p, done, window, m) || Brings(p, c, window, m)
    ensures forall s :: SomeLeads(p, done + [c], window, s) <==> SomeLeads(p, done, window, s) || Leads(p, c, window, s)
    ensures forall key :: SomeBehind(p, done + [c], window, key) <==> SomeBehind(p, done, window, key) || Behind(p, c, window, key)
  {
    hide Brings, Leads, Behind, Selected;
    var more := done + [c];
    assert c in more && forall d :: d in more <==> d in done || d == c;
    forall m
      ensures SomeBrings(p, more, window, m) <==> SomeBrings(p, done, window, m) || Brings(p, c, window, m)
    {
      if d :| d in done && Brings(p, d, window, m) {
        assert d in more;
      }
    }
    forall s
      ensures SomeLeads(p, more, window, s) <==> SomeLeads(p, done, window, s) || Leads(p, c, window, s)
    {
      if d :| d in done && Leads(p, d, window, s) {
        assert d in more;
      }
    }
    forall key
      ensures SomeBehind(p, more, window, key) <==> SomeBehind(p, done, window, key) || Behind(p, c, window, key)
    {
      if d :| d in done && Behind(p, d, window, key) {
        assert d in more;
      }
    }
  }

  lemma GatheredIsCollected(p: Project, at: Place, window: Window, stack: set<nat>, depth: nat, program: seq<Contribution>, before: Closure, after: Closure)
    requires at in p.programs && program == SelectProgramWindow(p.programs[at], window)
    requires Fits(p, at, [], stack, depth)
    requires AllSelected(program, window) && Gathered(p, at, window, program, before, after)
    requires ChildrenAdmit(p, at, program, window, stack, depth)
    ensures Collected(p, at, window, before, after) && Admits(p, at, window, stack, depth)
  {
    hide Brings, Plays, Visits, Reached, Selected, Fits, SomeBrings, SomeLeads, SomeBehind;
    AdmitsFromChildren(p, at, window, stack, depth);
    forall media
      ensures Plays(p, at, window, media) <==> SomeBrings(p, program, window, media)
    {
      PlaysInProgram(p, at, window, program, media);
    }
    forall sequence
      ensures Visits(p, at, window, sequence) <==> sequence == at.sequence || SomeLeads(p, program, window, sequence)
    {
      VisitsInProgram(p, at, window, program, sequence);
    }
    forall key
      ensures Reached(p, at, window, key) <==> key == Key(at, window) || SomeBehind(p, program, window, key)
    {
      ReachedInProgram(p, at, window, program, key);
    }
  }

  lemma PlaysInProgram(p: Project, at: Place, window: Window, program: seq<Contribution>, media: Media)
    requires at in p.programs && program == SelectProgramWindow(p.programs[at], window)
    ensures AllSelected(program, window) && (Plays(p, at, window, media) <==> SomeBrings(p, program, window, media))
  {
    hide Brings, Plays, Selected;
    if Plays(p, at, window, media) {
      PlaysHere(p, at, window, media);
    }
    if c :| c in program && Brings(p, c, window, media) {
      BringsPlays(p, at, window, c, media);
    }
  }

  lemma VisitsInProgram(p: Project, at: Place, window: Window, program: seq<Contribution>, sequence: nat)
    requires at in p.programs && program == SelectProgramWindow(p.programs[at], window)
    ensures AllSelected(program, window)
    ensures Visits(p, at, window, sequence) <==> sequence == at.sequence || SomeLeads(p, program, window, sequence)
  {
    hide Selected, Walk;
    if sequence == at.sequence {
      assert Visits(p, at, window, sequence);
    } else if Visits(p, at, window, sequence) {
      VisitsHere(p, at, window, sequence);
      var c :| c in p.programs[at] && Selected(c, window) && c.source.Nested? && SelectedSourceWindow(c, window).Some? && Visits(p, c.source.place, SelectedSourceWindow(c, window).value, sequence);
      assert c in program && Leads(p, c, window, sequence);
    }
    if c :| c in program && Leads(p, c, window, sequence) {
      VisitsThere(p, at, window, c, sequence);
    }
  }

  /** One Sequence with the compiled contributions of its outputs. */
  datatype Sequence = Sequence(id: nat, firstOutput: Option<nat>, programs: map<Place, seq<Contribution>>) {
    ghost predicate Valid() { forall place :: place in programs ==> place.sequence == id }
  }

  /** Every identity is given once, except that the root may be listed again as it is. */
  ghost predicate Unambiguous(root: Sequence, sequences: seq<Sequence>) {
    && (forall i :: 0 <= i < |sequences| && sequences[i].id == root.id ==> sequences[i] == root)
    && (forall i, j :: 0 <= i < j < |sequences| ==> sequences[i].id != sequences[j].id)
  }

  ghost predicate HoldsPlace(p: Project, s: Sequence, place: Place) {
    && (place in p.programs <==> place in s.programs)
    && (place in p.programs ==> p.programs[place] == s.programs[place])
  }

  ghost predicate Enters(p: Project, s: Sequence) {
    && s.id in p.firstOutput && p.firstOutput[s.id] == s.firstOutput
    && forall place: Place | place.sequence == s.id :: HoldsPlace(p, s, place)
  }

  ghost predicate Listed(root: Sequence, sequences: seq<Sequence>, id: nat) {
    id == root.id || exists i :: 0 <= i < |sequences| && sequences[i].id == id
  }

  /** The project has the root, the listed Sequences and nothing else. */
  ghost predicate Gathers(p: Project, root: Sequence, sequences: seq<Sequence>) {
    && Enters(p, root) && (forall i :: 0 <= i < |sequences| ==> Enters(p, sequences[i]))
    && (forall id :: id in p.firstOutput <==> Listed(root, sequences, id))
    && (forall place :: place in p.programs ==> place.sequence in p.firstOutput)
  }

  lemma OneMore(root: Sequence, done: seq<Sequence>, s: Sequence)
    ensures Unambiguous(root, done + [s]) <==>
              Unambiguous(root, done) && (s.id == root.id ==> s == root) && forall i :: 0 <= i < |done| ==> done[i].id != s.id
    ensures forall id :: Listed(root, done + [s], id) <==> Listed(root, done, id) || id == s.id
  {
    var more := done + [s];
    assert more[|done|] == s;
    assert forall i :: 0 <= i < |done| ==> more[i] == done[i];
  }

  lemma {:induction false} PrefixUnambiguous(root: Sequence, sequences: seq<Sequence>, i: nat)
    requires i <= |sequences| && !Unambiguous(root, sequences[..i])
    ensures !Unambiguous(root, sequences)
  {}

  lemma GathersMore(p: Project, root: Sequence, done: seq<Sequence>, s: Sequence)
    requires Gathers(p, root, done) && s.Valid() && s.id !in p.firstOutput
    ensures Gathers(Project(p.firstOutput[s.id := s.firstOutput], p.programs + s.programs), root, done + [s])
  {
    hide Listed;
    OneMore(root, done, s);
    var more := Project(p.firstOutput[s.id := s.firstOutput], p.programs + s.programs);
    forall other: Sequence | Enters(p, other)
      ensures Enters(more, other)
    {
      forall place: Place | place.sequence == other.id
        ensures HoldsPlace(more, other, place)
      {
        assert HoldsPlace(p, other, place) && place !in s.programs;
      }
    }
  }

  lemma GathersAgain(p: Project, root: Sequence, done: seq<Sequence>)
    requires Gathers(p, root, done)
    ensures Gathers(p, root, done + [root])
  {
    hide Listed, Enters;
    OneMore(root, done, root);
    assert Listed(root, done, root.id) by {
      GathersRoot(p, root, done);
    }
  }

  lemma GathersRoot(p: Project, root: Sequence, done: seq<Sequence>)
    ensures Listed(root, done, root.id)
  {}

  lemma GathersOne(root: Sequence)
    requires root.Valid()
    ensures Gathers(Project(map[root.id := root.firstOutput], root.programs), root, [])
  {}

  /** Look the Sequences up by identity; an identity that is not unique is refused. */
  method GatherCandidates(root: Sequence, sequences: seq<Sequence>) returns (error: Option<DependencyError>, p: Project)
    requires root.Valid() && forall i :: 0 <= i < |sequences| ==> sequences[i].Valid()
    ensures error == (if Unambiguous(root, sequences) then None else Some(DuplicateSequence))
    ensures error.None? ==> Gathers(p, root, sequences)
  {
    hide Enters;
    p := Project(map[root.id := root.firstOutput], root.programs);
    GathersOne(root);
    var rootSeen := false;
    for i := 0 to |sequences|
      invariant Unambiguous(root, sequences[..i]) && Gathers(p, root, sequences[..i])
      invariant rootSeen <==> exists j :: 0 <= j < i && sequences[j].id == root.id
    {
      var s := sequences[i];
      ghost var done := sequences[..i];
      assert sequences[..i + 1] == done + [s];
      OneMore(root, done, s);
      assert rootSeen <==> exists j :: 0 <= j < i && done[j].id == root.id;
      assert s.id in p.firstOutput <==> Listed(root, done, s.id);
      if s.id == root.id {
        if rootSeen || s != root {
          PrefixUnambiguous(root, sequences, i + 1);
          return Some(DuplicateSequence), p;
        }
        rootSeen := true;
        GathersAgain(p, root, done);
      } else {
        if s.id in p.firstOutput {
          PrefixUnambiguous(root, sequences, i + 1);
          return Some(DuplicateSequence), p;
        }
        GathersMore(p, root, done, s);
        p := Project(p.firstOutput[s.id := s.firstOutput], p.programs + s.programs);
      }
    }
    assert sequences[..|sequences|] == sequences;
    error := None;
  }

  /** The closure of the root output over a half-open range. A media component is in it exactly when some time of the
      range maps through a chain of nested clips into one of its placements. */
  method CompileDependencyClosure(p: Project, sequence: nat, output: Option<nat>, range: Range)
    returns (error: Option<DependencyError>, closure: Closure)
    requires sequence in p.firstOutput && range.Valid()
    ensures error == Some(MissingProgramOutput) <==> output.None? && p.firstOutput[sequence].None?
    ensures error != Some(MissingProgramOutput) ==>
              var at := Place(sequence, if output.Some? then output.value else p.firstOutput[sequence].value);
              && (error.None? <==> Admits(p, at, FromHalfOpen(range), {}, 0))
              && (error.None? ==> forall media :: media in closure.media <==> PlaysIn(p, at, range, media))
              && (error.None? ==> forall sequence :: sequence in closure.sequences <==> Visits(p, at, FromHalfOpen(range), sequence))
              && (error.None? ==> forall key :: key in closure.programs <==> Reached(p, at, FromHalfOpen(range), key))
              && (error.None? ==> Evidence(p, closure))
              && (error.Some? ==> Faulty(p, at, FromHalfOpen(range), {}, 0, error.value))
  {
    closure := Closure({}, {}, map[]);
    var chosen := if output.Some? then output else p.firstOutput[sequence];
    if chosen.None? {
      return Some(MissingProgramOutput), closure;
    }
    var at := Place(sequence, chosen.value);
    hide Admits, Plays, Visits, Reached, Faulty;
    error, closure := Collect(p, at, FromHalfOpen(range), {}, 0, closure);
    forall media
      ensures Plays(p, at, FromHalfOpen(range), media) <==> PlaysIn(p, at, range, media)
    {
      PlaysInRange(p, at, range, media);
    }
  }

  ghost predicate PlaysIn(p: Project, at: Place, range: Range, media: Media) {
    exists t: real, chain: seq<Contribution>, c: Contribution :: range.Contains(t) && PlaysAt(p, at, t, chain, c, media)
  }

  lemma PlaysInRange(p: Project, at: Place, range: Range, media: Media)
    ensures Plays(p, at, FromHalfOpen(range), media) <==> PlaysIn(p, at, range, media)
  {
    hide PlaysAt;
    if Plays(p, at, FromHalfOpen(range), media) {
      var t: real, chain: seq<Contribution>, c: Contribution :| FromHalfOpen(range).Contains(t) && PlaysAt(p, at, t, chain, c, media);
      FromHalfOpenExact(range, t);
    }
    if PlaysIn(p, at, range, media) {
      var t: real, chain: seq<Contribution>, c: Contribution :| range.Contains(t) && PlaysAt(p, at, t, chain, c, media);
      FromHalfOpenExact(range, t);
    }
  }
}
