/** What selection is for: what it drops cannot be heard, and the selected part of a mixer sounds like all of it. */
module SelectionLaw {
  import opened Frames
  import opened Graph
  import opened Processors
  import opened SourceFrames
  import opened Schedule
  import opened Compensation
  import opened Transparency
  import opened Preparation
  import opened Tails
  import opened ProgramMix
  import opened Noninterference
  import opened GainLaw
  import Selection

  /** The strips of a program are muted as the mixer says; only tracks can be. */
  ghost predicate MutedAs<S(!new)>(m: Selection.Mixer, p: Program<S>) {
    forall n :: 0 <= n < |p.strips| ==> (p.strips[n].muted <==> p.strips[n].origin.Track? && p.strips[n].origin in m.muted)
  }

  // ------------------------------------------------------------------ a silenced tap

  /** Whatever the program and whatever it plays, the tap carries silence. */
  ghost predicate NeverHeard<S(!new)>(m: Selection.Mixer, tap: Selection.Tap) {
    forall p: Program<S>, signal: (nat, int) -> Frame, entry: int, n: nat, t: int ::
      TapSilent(m, tap, p, signal, entry, n, t)
  }

  ghost predicate TapSilent<S(!new)>(m: Selection.Mixer, tap: Selection.Tap, p: Program<S>, signal: (nat, int) -> Frame, entry: int, n: nat, t: int) {
    Acyclic(p) && MutedAs(m, p) && n < |p.strips| && p.strips[n].origin == tap.origin ==>
      MixedPort(p, signal, entry, n, tap.port, t) == Silence(p.channels)
  }

  /** A program that plays one clip on a track, sends it to a bus and to the output, from before its fader. */
  function Probe<S(!new)>(m: Selection.Mixer, track: Origin, bus: Origin, output: Origin): Program<S> {
    Program(
      [Strip(track, track in m.muted, 1.0, Constant(1.0), [], []),
       Strip(bus, false, 1.0, Constant(1.0), [], []),
       Strip(output, false, 1.0, Constant(1.0), [], [])],
      [PlannedContribution(0, 0, 1, Whole(), Constant(1.0), ConstantShape([1.0]), false, [], [])],
      [PlannedRoute(0, 1, PreFader, Constant(1.0)), PlannedRoute(0, 2, PreFader, Constant(1.0))],
      1, 1, 1)
  }

  function Whole(): TimeMap {
    TimeMap(Rational(0, 1), Rational(0, 1), Rational(1, 1), Covering)
  }

  lemma WholeBegins()
    ensures Whole().Valid() && Whole().FrameAt(1, 0) == 0
  {
    assert Whole().Position(1, 0) == 0.0;
  }

  lemma ProbeIsAcyclic<S(!new)>(m: Selection.Mixer, track: Origin, bus: Origin, output: Origin)
    requires track.Track? && bus.Bus? && output.Output?
    ensures Acyclic(Probe<S>(m, track, bus, output)) && MutedAs(m, Probe<S>(m, track, bus, output))
  {}

  function Loud(k: nat, f: int): Frame { [1.0] }

  lemma TrackIsHeard<S(!new)>(m: Selection.Mixer, track: Origin, bus: Origin, output: Origin)
    requires track.Track? && bus.Bus? && output.Output?
    ensures var p := Probe<S>(m, track, bus, output);
            && Acyclic(p)
            && Sample(MixedPort(p, Loud, 0, 0, PreFader, 0), 0) == 1.0 && Sample(MixedPort(p, Loud, 0, 0, PostFaderPreMute, 0), 0) == 1.0
  {
    hide MixedPort, MixedScopeInput, TailsKept, Lasts, TimeMap.FrameAt;
    var p := Probe<S>(m, track, bus, output);
    ProbeIsAcyclic<S>(m, track, bus, output);
    WholeBegins();
    var c := p.contributions[0];
    ScopeMultiplies(p, Loud, 0, 0, 1, 0, 0, 1.0, 0);
    var main := MixedScopeInput(p, Loud, 0, 0, 1);
    assert PrefixLatency(c.processors) == 0;
    assert Advanced(Slots(c.processors, 0), 0, 0, main, SilentSidechains(c.processors, 1, 1)) == Some(main);
    assert Lasts(c, 0) by { BeginLasts(c); }
    assert MixedContribution(p, Loud, 0, 0, 0) == Shape(main[0], [1.0]);
    assert MixedContributions(p, Loud, 0, 0, 0, 0) == Silence(1);
    assert MixedInput(p, Loud, 0, 0, 0) == Add(Silence(1), MixedContribution(p, Loud, 0, 0, 0));
    TrimMultiplies(p, Loud, 0, 0, 0, 0);
    FaderMultiplies(p, Loud, 0, 0, 0, 1.0, 0);
  }

  lemma BeginLasts<S>(c: PlannedContribution<S>)
    requires 0 < c.end
    ensures Lasts(c, 0)
  {}

  lemma ProbeRoutes<S(!new)>(m: Selection.Mixer, track: Origin, bus: Origin, output: Origin)
    ensures var p := Probe<S>(m, track, bus, output);
            RoutesInto(p.routes, 1) == [p.routes[0]] && RoutesInto(p.routes, 2) == [p.routes[1]]
  {
    var routes := Probe<S>(m, track, bus, output).routes;
    assert routes[..1] == [routes[0]] && routes[..1][..0] == [];
    assert RoutesInto(routes[..1], 1) == [routes[0]] && RoutesInto(routes[..1], 2) == [];
  }

  /** The bus and the output are heard at every port. */
  lemma SumsAreHeard<S(!new)>(m: Selection.Mixer, track: Origin, bus: Origin, output: Origin, n: nat, port: Port)
    requires track.Track? && bus.Bus? && output.Output? && 1 <= n <= 2
    ensures var p := Probe<S>(m, track, bus, output);
            Acyclic(p) && Sample(MixedPort(p, Loud, 0, n, port, 0), 0) == 1.0
  {
    hide MixedPort, MixedRoutes, RoutesInto;
    var p := Probe<S>(m, track, bus, output);
    ProbeIsAcyclic<S>(m, track, bus, output);
    ProbeRoutes<S>(m, track, bus, output);
    TrackIsHeard<S>(m, track, bus, output);
    NothingYetRouted(p, n);
    RouteMultiplies(p, Loud, 0, n, 1, 0, 1.0, 0);
    assert MixedInput(p, Loud, 0, n, 0) == MixedRoutes(p, Loud, 0, n, 1, 0);
    TrimMultiplies(p, Loud, 0, n, 0, 0);
    FaderMultiplies(p, Loud, 0, n, 0, 1.0, 0);
    AfterMute(p, n);
  }

  lemma NothingYetRouted<S(!new)>(p: Program<S>, n: nat)
    requires Acyclic(p) && n < |p.strips|
    ensures MixedRoutes(p, Loud, 0, n, 0, 0) == Silence(p.channels)
  {
    hide Acyclic;
  }

  lemma AfterMute<S(!new)>(p: Program<S>, n: nat)
    requires Acyclic(p) && n < |p.strips| && !p.strips[n].muted
    ensures MixedPort(p, Loud, 0, n, PostMute, 0) == MixedPort(p, Loud, 0, n, PostFaderPreMute, 0)
  {
    hide MixedRackOutput, Acyclic;
  }

  lemma HeardIsNotSilent<S(!new)>(m: Selection.Mixer, tap: Selection.Tap, p: Program<S>, n: nat)
    requires Acyclic(p) && MutedAs(m, p) && n < |p.strips| && p.strips[n].origin == tap.origin
    requires Sample(MixedPort(p, Loud, 0, n, tap.port, 0), 0) == 1.0
    ensures !NeverHeard<S>(m, tap)
  {
    hide MixedPort, Acyclic, MutedAs;
    assert Sample(Silence(p.channels), 0) == 0.0;
    assert !TapSilent(m, tap, p, Loud, 0, n, 0);
  }

  /** A tap is dropped exactly when nothing can ever be heard through it, whatever the program is that is mixed there. */
  lemma SilencedExactly<S(!new)>(m: Selection.Mixer, tap: Selection.Tap)
    ensures Selection.Silenced(m, tap) <==> NeverHeard<S>(m, tap)
  {
    hide MixedPort, Acyclic;
    if Selection.Silenced(m, tap) {
      forall p: Program<S>, signal: (nat, int) -> Frame, entry: int, n: nat, t: int
        ensures TapSilent(m, tap, p, signal, entry, n, t)
      {
        if Acyclic(p) && MutedAs(m, p) && n < |p.strips| && p.strips[n].origin == tap.origin {
          MutedIsSilent(p, signal, entry, n, t);
        }
      }
    } else {
      var track := if tap.origin.Track? then tap.origin else Track(0);
      var bus := if tap.origin.Bus? then tap.origin else Bus(0);
      var output := if tap.origin.Output? then tap.origin else Output(0);
      var p := Probe<S>(m, track, bus, output);
      ProbeIsAcyclic<S>(m, track, bus, output);
      match tap.origin {
        case Track(_) =>
          TrackIsHeard<S>(m, track, bus, output);
          if tap.port == PostMute { AfterMute(p, 0); }
          HeardIsNotSilent(m, tap, p, 0);
        case Bus(_) =>
          SumsAreHeard<S>(m, track, bus, output, 1, tap.port);
          HeardIsNotSilent(m, tap, p, 1);
        case Output(_) =>
          SumsAreHeard<S>(m, track, bus, output, 2, tap.port);
          HeardIsNotSilent(m, tap, p, 2);
      }
    }
  }

  lemma MutedIsSilent<S(!new)>(p: Program<S>, signal: (nat, int) -> Frame, entry: int, n: nat, t: int)
    requires Acyclic(p) && n < |p.strips| && p.strips[n].muted
    ensures MixedPort(p, signal, entry, n, PostMute, t) == Silence(p.channels)
  {
    hide MixedRackOutput, Acyclic;
  }

  // ------------------------------------------------------------------ what is selected is enough

  /** Some enabled Route of the mixer is this one. */
  ghost predicate RouteKnown<S(!new)>(m: Selection.Mixer, p: Program<S>, route: PlannedRoute) {
    route.source < |p.strips| && route.destination < |p.strips| ==>
      exists r :: r in m.routes && r.enabled && r.source == Selection.Tap(p.strips[route.source].origin, route.port)
                  && r.destination == p.strips[route.destination].origin
  }

  /** Some enabled sidechain Route of the mixer taps the same port for a processor on the same side of the fader of the strip. */
  ghost predicate SidechainKnown<S(!new)>(m: Selection.Mixer, p: Program<S>, n: nat, behind: bool, route: SidechainRoute)
    requires n < |p.strips|
  {
    var racks := if behind then m.post else m.pre;
    route.source < |p.strips| ==>
      exists s :: s in m.sidechains && s.enabled && s.source == Selection.Tap(p.strips[route.source].origin, route.port)
                  && p.strips[n].origin in racks && s.processor in racks[p.strips[n].origin]
  }

  /** Nothing in the program is connected that is not connected and enabled in the mixer. */
  ghost predicate Describes<S(!new)>(m: Selection.Mixer, p: Program<S>) {
    && MutedAs(m, p) && |p.strips| > 0 && p.strips[|p.strips| - 1].origin == m.output
    && (forall r :: 0 <= r < |p.routes| ==> RouteKnown(m, p, p.routes[r]))
    && (forall n, behind, j, b :: 0 <= n < |p.strips| && 0 <= j < |p.strips[n].RackAt(behind)| && 0 <= b < |p.strips[n].RackAt(behind)[j].sidechains| ==>
          SidechainKnown(m, p, n, behind, p.strips[n].RackAt(behind)[j].sidechains[b]))
  }

  /** The strips that the facts about the mixer name. */
  ghost function Selected<S(!new)>(f: Selection.Facts, p: Program<S>): Reach {
    Reach(set n | n in UpTo(|p.strips|) && p.strips[n].origin in f.heard,
          set n | n in UpTo(|p.strips|) && p.strips[n].origin in f.heard && p.strips[n].origin in f.behind)
  }

  lemma {:induction false} FeedIsRoute<S(!new)>(p: Program<S>, routes: seq<PlannedRoute>, i: nat)
    requires i < |RouteFeeds(p, routes)|
    ensures exists r :: 0 <= r < |routes| && FeedOf(p, routes[r], RouteFeeds(p, routes)[i])
    decreases |routes|
  {
    hide Muted;
    var head := routes[..|routes| - 1];
    if i < |RouteFeeds(p, head)| {
      FeedIsRoute(p, head, i);
      var r :| 0 <= r < |head| && FeedOf(p, head[r], RouteFeeds(p, head)[i]);
      assert routes[r] == head[r];
    } else {
      assert FeedOf(p, routes[|routes| - 1], RouteFeeds(p, routes)[i]);
    }
  }

  ghost predicate FeedOf<S(!new)>(p: Program<S>, route: PlannedRoute, feed: Feed) {
    route.source == feed.source && route.port == feed.port && !Muted(p, route.source, route.port)
  }

  lemma {:induction false} FeedIsSidechain<S(!new)>(p: Program<S>, sidechains: seq<SidechainRoute>, bus: nat, i: nat)
    requires i < |SidechainFeeds(p, sidechains, bus)|
    ensures exists b :: 0 <= b < |sidechains| && SidechainFeedOf(p, sidechains[b], SidechainFeeds(p, sidechains, bus)[i])
    decreases |sidechains|
  {
    hide Muted;
    var head := sidechains[..|sidechains| - 1];
    if i < |SidechainFeeds(p, head, bus)| {
      FeedIsSidechain(p, head, bus, i);
      var b :| 0 <= b < |head| && SidechainFeedOf(p, head[b], SidechainFeeds(p, head, bus)[i]);
      assert sidechains[b] == head[b];
    } else {
      assert SidechainFeedOf(p, sidechains[|sidechains| - 1], SidechainFeeds(p, sidechains, bus)[i]);
    }
  }

  ghost predicate SidechainFeedOf<S(!new)>(p: Program<S>, route: SidechainRoute, feed: Feed) {
    route.source == feed.source && route.port == feed.port && !Muted(p, route.source, route.port)
  }

  /** A tap that the mixer hears is not muted, so what it names is selected. */
  lemma TapReached<S(!new)>(m: Selection.Mixer, f: Selection.Facts, p: Program<S>, source: nat, port: Port)
    requires MutedAs(m, p) && source < |p.strips| && Selection.HeardThrough(f, Selection.Tap(p.strips[source].origin, port))
    ensures Reaches(Selected(f, p), source, port)
  {}

  lemma NotSilenced<S(!new)>(m: Selection.Mixer, p: Program<S>, source: nat, port: Port)
    requires MutedAs(m, p) && source < |p.strips| && !Muted(p, source, port)
    ensures Selection.Carries(m, true, Selection.Tap(p.strips[source].origin, port))
  {}

  lemma RoutesReached<S(!new)>(m: Selection.Mixer, f: Selection.Facts, p: Program<S>, n: nat)
    requires Acyclic(p) && Describes(m, p) && Selection.Closed(m, f) && n < |p.strips| && p.strips[n].origin in f.heard
    ensures AllReached(Selected(f, p), RouteFeeds(p, RoutesInto(p.routes, n)))
  {
    hide RoutesInto, RouteFeeds, Reaches, Selected, Muted, MutedAs, Selection.Carries, Selection.HeardThrough, Program.Compiled, SidechainsLeadForward, LeadsForward, SidechainKnown;
    var into := RoutesInto(p.routes, n);
    var feeds := RouteFeeds(p, into);
    RoutesSourced(p, n);
    forall i | 0 <= i < |feeds|
      ensures Reaches(Selected(f, p), feeds[i].source, feeds[i].port)
    {
      FeedIsRoute(p, into, i);
      var r :| 0 <= r < |into| && FeedOf(p, into[r], feeds[i]);
      IntoIsPlanned(p.routes, n, r);
      var k :| 0 <= k < |p.routes| && p.routes[k] == into[r];
      assert RouteKnown(m, p, p.routes[k]);
      var route :| route in m.routes && route.enabled && route.source == Selection.Tap(p.strips[feeds[i].source].origin, feeds[i].port)
                   && route.destination == p.strips[n].origin;
      NotSilenced(m, p, feeds[i].source, feeds[i].port);
      TapReached(m, f, p, feeds[i].source, feeds[i].port);
    }
  }

  lemma RackIsReached<S(!new)>(m: Selection.Mixer, f: Selection.Facts, p: Program<S>, n: nat, behind: bool)
    requires Acyclic(p) && Describes(m, p) && Selection.Closed(m, f) && n < |p.strips| && p.strips[n].origin in f.heard
    requires behind ==> p.strips[n].origin in f.behind
    ensures RackReached(p, Selected(f, p), p.strips[n].RackAt(behind))
  {
    hide SidechainFeeds, Reaches, Selected, Muted, MutedAs, Selection.Carries, Selection.HeardThrough, Program.Compiled, LeadsForward, RouteKnown, Selection.Attended;
    var rack := p.strips[n].RackAt(behind);
    forall j, bus: nat | 0 <= j < |rack|
      ensures AllReached(Selected(f, p), SidechainFeeds(p, rack[j].sidechains, bus))
    {
      var feeds := SidechainFeeds(p, rack[j].sidechains, bus);
      forall i | 0 <= i < |feeds|
        ensures Reaches(Selected(f, p), feeds[i].source, feeds[i].port)
      {
        FeedIsSidechain(p, rack[j].sidechains, bus, i);
        var b :| 0 <= b < |rack[j].sidechains| && SidechainFeedOf(p, rack[j].sidechains[b], feeds[i]);
        assert LeadBefore(rack[j].sidechains, n);
        assert SidechainKnown(m, p, n, behind, rack[j].sidechains[b]);
        var route :| route in m.sidechains && route.enabled && route.source == Selection.Tap(p.strips[feeds[i].source].origin, feeds[i].port)
                     && (var racks := if behind then m.post else m.pre; p.strips[n].origin in racks && route.processor in racks[p.strips[n].origin]);
        ProcessorActs(m, f, p.strips[n].origin, behind, route.processor);
        NotSilenced(m, p, feeds[i].source, feeds[i].port);
        TapReached(m, f, p, feeds[i].source, feeds[i].port);
      }
    }
  }

  lemma ProcessorActs(m: Selection.Mixer, f: Selection.Facts, origin: Origin, behind: bool, processor: nat)
    requires origin in f.heard && (behind ==> origin in f.behind)
    requires var racks := if behind then m.post else m.pre; origin in racks && processor in racks[origin]
    ensures Selection.Attended(m, f, processor)
  {}

  /** Facts that obey the rules of influence name everything that reaches what they name. */
  lemma RulesSupport<S(!new)>(m: Selection.Mixer, f: Selection.Facts, p: Program<S>)
    requires Acyclic(p) && Describes(m, p) && Selection.Closed(m, f)
    ensures Supports(p, Selected(f, p)) && Reaches(Selected(f, p), |p.strips| - 1, PostMute)
  {
    hide RoutesInto, RouteFeeds, RackReached, AllReached, Acyclic;
    forall n | 0 <= n < |p.strips| && n in Selected(f, p).heard
      ensures AllReached(Selected(f, p), RouteFeeds(p, RoutesInto(p.routes, n)))
      ensures RackReached(p, Selected(f, p), p.strips[n].pre) && (n in Selected(f, p).behind ==> RackReached(p, Selected(f, p), p.strips[n].post))
    {
      RoutesReached(m, f, p, n);
      RackIsReached(m, f, p, n, false);
      if n in Selected(f, p).behind {
        RackIsReached(m, f, p, n, true);
      }
    }
  }

  /** Noninterference: two programs of a mixer that agree on everything selected have the same output, whatever the strips,
      Routes and sidechains that are not selected carry. */
  lemma SelectionDecides<S(!new)>(m: Selection.Mixer, f: Selection.Facts, p: Program<S>, q: Program<S>, a: (nat, int) -> Frame, b: (nat, int) -> Frame, entry: int, t: int)
    requires Acyclic(p) && Acyclic(q) && Describes(m, p) && Selection.Closed(m, f) && Agree(p, q, a, b, Selected(f, p))
    ensures ProgramOutput(p, a, entry, t) == ProgramOutput(q, b, entry, t)
  {
    hide Acyclic, Describes, Selection.Closed, MixedPort, Agree, Supports;
    RulesSupport(m, f, p);
    AgreeingSoundTheSame(p, q, a, b, Selected(f, p), entry, t);
  }

  // ------------------------------------------------------------------ dropping the rest

  /** The Routes into selected strips whose taps are not muted. */
  ghost function KeptRoutes<S(!new)>(f: Selection.Facts, p: Program<S>, routes: seq<PlannedRoute>): (kept: seq<PlannedRoute>) {
    if |routes| == 0 then [] else
    var route := routes[|routes| - 1];
    KeptRoutes(f, p, routes[..|routes| - 1])
    + if route.destination in Selected(f, p).heard && !Muted(p, route.source, route.port) then [route] else []
  }

  /** A strip without what is not selected of it. */
  ghost function KeptStrip<S(!new)>(f: Selection.Facts, p: Program<S>, n: nat): Strip<S>
    requires n < |p.strips|
  {
    var strip := p.strips[n];
    if n in Selected(f, p).behind then strip
    else if n in Selected(f, p).heard then strip.(fader := Constant(0.0), post := [])
    else Strip(strip.origin, strip.muted, 0.0, Constant(0.0), [], [])
  }

  ghost function KeptContribution<S(!new)>(f: Selection.Facts, p: Program<S>, k: nat): PlannedContribution<S>
    requires k < |p.contributions|
  {
    var c := p.contributions[k];
    if c.track in Selected(f, p).heard then c else c.(scopeGain := Constant(0.0), processors := [], tails := [])
  }

  /** The program that is left when everything that is not selected is dropped. */
  ghost function Kept<S(!new)>(f: Selection.Facts, p: Program<S>): Program<S> {
    p.(strips := seq(|p.strips|, n requires 0 <= n < |p.strips| => KeptStrip(f, p, n)),
       contributions := seq(|p.contributions|, k requires 0 <= k < |p.contributions| => KeptContribution(f, p, k)),
       routes := KeptRoutes(f, p, p.routes))
  }

  lemma {:induction false} KeptRouteIsRoute<S(!new)>(f: Selection.Facts, p: Program<S>, routes: seq<PlannedRoute>, i: nat)
    requires i < |KeptRoutes(f, p, routes)|
    ensures KeptRoutes(f, p, routes)[i] in routes
    decreases |routes|
  {
    hide Selected, Muted;
    var head := routes[..|routes| - 1];
    if i < |KeptRoutes(f, p, head)| {
      KeptRouteIsRoute(f, p, head, i);
    }
  }

  lemma KeptIsAcyclic<S(!new)>(f: Selection.Facts, p: Program<S>)
    requires Acyclic(p)
    ensures Acyclic(Kept(f, p)) && SameMutes(p, Kept(f, p))
  {
    hide Streaming, Selected, KeptRoutes;
    var q := Kept(f, p);
    forall n | 0 <= n < |q.strips|
      ensures q.RackStreams(q.strips[n].pre) && q.RackStreams(q.strips[n].post)
    {
      assert p.RackStreams(p.strips[n].pre) && p.RackStreams(p.strips[n].post);
    }
    forall k | 0 <= k < |q.contributions|
      ensures q.ContributionCompiled(q.contributions[k])
    {
      assert p.ContributionCompiled(p.contributions[k]);
    }
    forall r | 0 <= r < |q.routes|
      ensures q.routes[r] in p.routes
    {
      KeptRouteIsRoute(f, p, p.routes, r);
    }
    forall n, behind, j | 0 <= n < |q.strips| && 0 <= j < |q.strips[n].RackAt(behind)|
      ensures LeadBefore(q.strips[n].RackAt(behind)[j].sidechains, n)
    {
      assert LeadBefore(p.strips[n].RackAt(behind)[j].sidechains, n);
    }
  }

  lemma IntoJoins(a: seq<PlannedRoute>, route: PlannedRoute, n: nat)
    ensures RoutesInto(a + [route], n) == RoutesInto(a, n) + if route.destination == n then [route] else []
  {
    assert (a + [route])[..|a|] == a;
  }

  lemma FeedsJoin<S(!new)>(p: Program<S>, a: seq<PlannedRoute>, route: PlannedRoute)
    ensures RouteFeeds(p, a + [route]) == RouteFeeds(p, a) + if Muted(p, route.source, route.port) then [] else [Feed(route.source, route.port, route.gain)]
  {
    hide Muted;
    assert (a + [route])[..|a|] == a;
  }

  /** Dropping muted taps and Routes elsewhere leaves what arrives at a selected strip. */
  lemma {:induction false} KeptFeeds<S(!new)>(f: Selection.Facts, p: Program<S>, routes: seq<PlannedRoute>, n: nat)
    requires n in Selected(f, p).heard
    ensures RouteFeeds(p, RoutesInto(KeptRoutes(f, p, routes), n)) == RouteFeeds(p, RoutesInto(routes, n))
    decreases |routes|
  {
    hide RouteFeeds, RoutesInto, Selected, Muted;
    if |routes| > 0 {
      var head, route := routes[..|routes| - 1], routes[|routes| - 1];
      assert routes == head + [route];
      KeptFeeds(f, p, head, n);
      IntoJoins(head, route, n);
      IntoJoins(KeptRoutes(f, p, head), route, n);
      FeedsJoin(p, RoutesInto(head, n), route);
      FeedsJoin(p, RoutesInto(KeptRoutes(f, p, head), n), route);
      KeptStep(f, p, head, route);
      assert RoutesInto(head, n) + [] == RoutesInto(head, n) && RouteFeeds(p, RoutesInto(head, n)) + [] == RouteFeeds(p, RoutesInto(head, n));
      assert KeptRoutes(f, p, head) + [] == KeptRoutes(f, p, head);
      assert RoutesInto(KeptRoutes(f, p, head), n) + [] == RoutesInto(KeptRoutes(f, p, head), n);
    }
  }

  lemma KeptStep<S(!new)>(f: Selection.Facts, p: Program<S>, head: seq<PlannedRoute>, route: PlannedRoute)
    ensures KeptRoutes(f, p, head + [route])
            == KeptRoutes(f, p, head) + if route.destination in Selected(f, p).heard && !Muted(p, route.source, route.port) then [route] else []
  {
    hide Selected, Muted;
    assert (head + [route])[..|head|] == head;
  }

  /** The selected part of a mixer sounds like all of it. */
  lemma SelectionIsEnough<S(!new)>(m: Selection.Mixer, f: Selection.Facts, p: Program<S>, signal: (nat, int) -> Frame, entry: int, t: int)
    requires Acyclic(p) && Describes(m, p) && Selection.Closed(m, f)
    ensures Acyclic(Kept(f, p)) && ProgramOutput(Kept(f, p), signal, entry, t) == ProgramOutput(p, signal, entry, t)
  {
    hide Selection.Closed, MixedPort, RouteFeeds, RoutesInto, SameRack, KeptRoutes, Program.Compiled, LeadsForward, SidechainsLeadForward, Describes, SameMutes;
    var q := Kept(f, p);
    KeptIsAcyclic(f, p);
    forall n | 0 <= n < |p.strips| && n in Selected(f, p).heard
      ensures SameStrip(p, q, signal, signal, Selected(f, p), n)
    {
      RackItself(p, q, p.strips[n].pre);
      RackItself(p, q, p.strips[n].post);
      KeptFeeds(f, p, p.routes, n);
      SameMutesSameRoutes(p, q, RoutesInto(q.routes, n));
    }
    SelectionDecides(m, f, p, q, signal, signal, entry, t);
  }
}
