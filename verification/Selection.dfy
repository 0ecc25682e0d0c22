/** Which Routes, buses, tracks and sidechains of a mixer can influence one public output. */
module Selection {
  import opened Graph

  /** Where a Route taps its signal. */
  datatype Tap = Tap(origin: Origin, port: Port)

  datatype MixRoute = MixRoute(id: nat, enabled: bool, source: Tap, destination: Origin)

  datatype SidechainRoute = SidechainRoute(id: nat, enabled: bool, source: Tap, processor: nat)

  /** The authored mixer. `pre`, `post` and `scopes` hold the processors that are not bypassed: those before
      and behind the fader of a strip, and those of the processing scopes of a track's audible components. */
  datatype Mixer = Mixer(
    output: Origin, routes: seq<MixRoute>, sidechains: seq<SidechainRoute>, muted: set<Origin>,
    pre: map<Origin, set<nat>>, post: map<Origin, set<nat>>, scopes: map<Origin, set<nat>>)
  {
    /** Route ids are unique, Routes lead into buses or the output and never out of the output. */
    ghost predicate Validated() {
      && output.Output?
      && (forall i, j :: 0 <= i < j < |routes| ==> routes[i].id != routes[j].id)
      && (forall r :: r in routes ==> !r.source.origin.Output? && !r.destination.Track?)
      && (forall s :: s in sidechains ==> !s.source.origin.Output?)
    }
  }

  function Of(racks: map<Origin, set<nat>>, origin: Origin): set<nat> {
    if origin in racks then racks[origin] else {}
  }

  /** A muted track is silent at its post-mute port only. */
  predicate Silenced(m: Mixer, source: Tap) {
    source.origin.Track? && source.port == PostMute && source.origin in m.muted
  }

  predicate Live(m: Mixer, route: MixRoute) {
    route.enabled && !Silenced(m, route.source)
  }

  // ------------------------------------------------------------------ what influence means

  /** Facts about one output: who is heard at all, who is heard behind the fader, which sidechains act. */
  datatype Facts = Facts(heard: set<Origin>, behind: set<Origin>, sidechains: set<nat>)

  /** A processor acts when its strip is heard at its side of the fader, or its scope belongs to a heard track. */
  predicate Acts(m: Mixer, f: Facts, processor: nat) {
    || (exists origin :: origin in f.heard && processor in Of(m.pre, origin))
    || (exists origin :: origin in f.heard && origin in f.behind && processor in Of(m.post, origin))
    || (exists origin :: origin in f.heard && origin.Track? && processor in Of(m.scopes, origin))
  }

  predicate HeardThrough(f: Facts, source: Tap) {
    source.origin in f.heard && (source.port != PreFader ==> source.origin in f.behind)
  }

  /** Something can come through: the connection is enabled, and its tap is not behind the mute of a muted track. */
  ghost predicate Carries(m: Mixer, enabled: bool, source: Tap) {
    enabled && !(source.port == PostMute && source.origin.Track? && source.origin in m.muted)
  }

  /** Somebody listens to the processor: it stands before the fader of a heard strip, behind the fader of one that is heard
      there, or in a scope of a heard track. */
  ghost predicate Attended(m: Mixer, f: Facts, processor: nat) {
    exists origin :: origin in f.heard &&
      (|| (origin in m.pre && processor in m.pre[origin])
       || (origin in m.post && processor in m.post[origin] && origin in f.behind)
       || (origin in m.scopes && processor in m.scopes[origin] && origin.Track?))
  }

  /** The rules of influence. */
  ghost predicate Closed(m: Mixer, f: Facts) {
    && m.output in f.heard && m.output in f.behind
    && (forall r :: r in m.routes && Carries(m, r.enabled, r.source) && r.destination in f.heard ==> HeardThrough(f, r.source))
    && (forall s :: s in m.sidechains && Carries(m, s.enabled, s.source) && Attended(m, f, s.processor) ==> s.id in f.sidechains)
    && (forall s :: s in m.sidechains && s.id in f.sidechains ==> HeardThrough(f, s.source))
  }

  lemma LiveCarries(m: Mixer)
    ensures forall r :: r in m.routes ==> (Live(m, r) <==> Carries(m, r.enabled, r.source))
    ensures forall s :: s in m.sidechains ==> (s.enabled && !Silenced(m, s.source) <==> Carries(m, s.enabled, s.source))
  {}

  lemma ActsIsAttended(m: Mixer, f: Facts, processor: nat)
    ensures Acts(m, f, processor) <==> Attended(m, f, processor)
  {}

  ghost predicate Within(f: Facts, g: Facts) {
    f.heard <= g.heard && f.behind <= g.behind && f.sidechains <= g.sidechains
  }

  // ------------------------------------------------------------------ signal closure

  /** The destinations and sources that Routes alone connect to the output or a seed. */
  ghost predicate RouteClosed(m: Mixer, seeds: set<Origin>, heard: set<Origin>) {
    && m.output in heard && seeds <= heard
    && forall r :: r in m.routes && Carries(m, r.enabled, r.source) && r.destination in heard ==> r.source.origin in heard
  }

  ghost predicate LeastRouteClosed(m: Mixer, seeds: set<Origin>, heard: set<Origin>) {
    RouteClosed(m, seeds, heard) && forall other: set<Origin> :: RouteClosed(m, seeds, other) ==> heard <= other
  }

  function RouteSources(m: Mixer): set<Origin> {
    set r | r in m.routes :: r.source.origin
  }

  /** The state of the worklist. */
  datatype Worklist = Worklist(selected: set<nat>, tracks: set<Origin>, buses: set<Origin>, pending: seq<Origin>)

  predicate Destination(m: Mixer, w: Worklist, origin: Origin) { origin == m.output || origin in w.buses }

  /** Every live Route into a destination that is neither pending nor just being explored is selected,
      and of the latter's Routes those among `routes`. */
  ghost predicate Explored(m: Mixer, w: Worklist, routes: seq<MixRoute>, current: Origin) {
    && (forall r :: r in m.routes && Live(m, r) && Destination(m, w, r.destination) && r.destination !in w.pending && r.destination != current ==>
          r.id in w.selected)
    && (forall r :: r in routes && Live(m, r) && r.destination == current ==> r.id in w.selected)
  }

  predicate TakenUp(w: Worklist, origin: Origin) {
    if origin.Track? then origin in w.tracks else origin in w.buses
  }

  /** Exactly connected things are taken up: a selected Route is live and leads into a destination, its source
      was taken up, and nothing was taken up that some closed set could do without. */
  ghost predicate Connected(m: Mixer, seeds: set<Origin>, w: Worklist) {
    && (forall r :: r in m.routes && r.id in w.selected ==> Live(m, r) && Destination(m, w, r.destination) && TakenUp(w, r.source.origin))
    && (forall origin :: origin in w.buses ==> origin.Bus?) && (forall origin :: origin in w.tracks ==> origin.Track?)
    && (forall heard: set<Origin> :: RouteClosed(m, seeds, heard) ==> w.tracks <= heard && w.buses <= heard)
    && seeds <= w.buses <= seeds + RouteSources(m)
    && (forall p :: p in w.pending ==> Destination(m, w, p))
  }

  /** Select one Route into the destination being explored; a bus that is new goes on the worklist. */
  function Select(w: Worklist, route: MixRoute): Worklist {
    var origin := route.source.origin;
    var w' := w.(selected := w.selected + {route.id});
    if origin.Track? then w'.(tracks := w.tracks + {origin})
    else if origin in w.buses then w'
    else w'.(buses := w.buses + {origin}, pending := w.pending + [origin])
  }

  lemma SelectStaysConnected(m: Mixer, seeds: set<Origin>, w: Worklist, route: MixRoute)
    requires m.Validated() && Connected(m, seeds, w)
    requires route in m.routes && Live(m, route) && Destination(m, w, route.destination)
    ensures Connected(m, seeds, Select(w, route))
  {
    var after := Select(w, route);
    forall r | r in m.routes && r.id in after.selected
      ensures Live(m, r) && Destination(m, after, r.destination) && TakenUp(after, r.source.origin)
    {
      SameIdSameRoute(m, r, route);
    }
  }

  lemma SameIdSameRoute(m: Mixer, a: MixRoute, b: MixRoute)
    requires m.Validated() && a in m.routes && b in m.routes
    ensures a.id == b.id ==> a == b
  {}

  lemma SelectExplores(m: Mixer, seeds: set<Origin>, w: Worklist, routes: seq<MixRoute>, route: MixRoute)
    requires m.Validated() && Connected(m, seeds, w) && Explored(m, w, routes, route.destination)
    ensures Explored(m, Select(w, route), routes + [route], route.destination)
  {}

  /** One popped destination. */
  method ExploreDestination(m: Mixer, destination: Origin, seeds: set<Origin>, before: Worklist) returns (w: Worklist)
    requires m.Validated() && Connected(m, seeds, before) && Explored(m, before, [], destination)
    requires Destination(m, before, destination)
    ensures Connected(m, seeds, w) && Explored(m, w, m.routes, destination)
    ensures before.buses <= w.buses && (w.buses == before.buses ==> w.pending == before.pending)
  {
    hide Connected, Explored;
    w := before;
    for i := 0 to |m.routes|
      invariant Connected(m, seeds, w) && Explored(m, w, m.routes[..i], destination)
      invariant Destination(m, w, destination)
      invariant before.buses <= w.buses && (w.buses == before.buses ==> w.pending == before.pending)
    {
      var route := m.routes[i];
      assert m.routes[..i + 1] == m.routes[..i] + [route];
      if Live(m, route) && route.destination == destination && route.id !in w.selected {
        SelectStaysConnected(m, seeds, w, route);
        SelectExplores(m, seeds, w, m.routes[..i], route);
        w := Select(w, route);
      } else {
        SkipExplores(m, w, m.routes[..i], route, destination);
      }
    }
    assert m.routes[..|m.routes|] == m.routes;
  }

  lemma SkipExplores(m: Mixer, w: Worklist, routes: seq<MixRoute>, route: MixRoute, destination: Origin)
    requires Explored(m, w, routes, destination)
    requires !Live(m, route) || route.destination != destination || route.id in w.selected
    ensures Explored(m, w, routes + [route], destination)
  {}

  /** The Routes, tracks and buses that reach the output or one of the additional buses. */
  method ResolveSignalClosure(m: Mixer, additional: set<Origin>) returns (selected: set<nat>, tracks: set<Origin>, buses: set<Origin>)
    requires m.Validated() && forall bus :: bus in additional ==> bus.Bus?
    ensures LeastRouteClosed(m, additional, {m.output} + tracks + buses)
    ensures forall origin :: origin in buses ==> origin.Bus?
    ensures forall origin :: origin in tracks ==> origin.Track?
    ensures forall r :: r in m.routes ==> (r.id in selected <==> Carries(m, r.enabled, r.source) && (r.destination == m.output || r.destination in buses))
  {
    hide Explored;
    var seeds := SeqOf(additional);
    var w := Worklist({}, {}, additional, [m.output] + seeds);
    while |w.pending| > 0
      invariant Connected(m, additional, w) && Settled(m, w)
      decreases additional + RouteSources(m) - w.buses, |w.pending|
    {
      var destination := w.pending[|w.pending| - 1];
      assert destination in w.pending;
      Pops(m, additional, w);
      w := w.(pending := w.pending[..|w.pending| - 1]);
      w := ExploreDestination(m, destination, additional, w);
      Settles(m, w, destination);
    }
    selected, tracks, buses := w.selected, w.tracks, w.buses;
    SettledIsLeast(m, additional, w);
  }

  /** Every live Route into a destination that is not pending is selected. */
  ghost predicate Settled(m: Mixer, w: Worklist) {
    forall r :: r in m.routes && Live(m, r) && Destination(m, w, r.destination) && r.destination !in w.pending ==> r.id in w.selected
  }

  lemma Pops(m: Mixer, seeds: set<Origin>, w: Worklist)
    requires Connected(m, seeds, w) && Settled(m, w) && |w.pending| > 0
    ensures var popped := w.(pending := w.pending[..|w.pending| - 1]);
            Connected(m, seeds, popped) && Explored(m, popped, [], w.pending[|w.pending| - 1])
  {
    var popped := w.(pending := w.pending[..|w.pending| - 1]);
    assert w.pending == popped.pending + [w.pending[|w.pending| - 1]];
    forall p | p in popped.pending
      ensures Destination(m, popped, p)
    {
      assert p in w.pending && Destination(m, w, p);
    }
    forall r | r in m.routes && Live(m, r) && Destination(m, popped, r.destination)
        && r.destination !in popped.pending && r.destination != w.pending[|w.pending| - 1]
      ensures r.id in popped.selected
    {}
  }

  lemma Settles(m: Mixer, w: Worklist, destination: Origin)
    requires Explored(m, w, m.routes, destination)
    ensures Settled(m, w)
  {}

  lemma SettledIsLeast(m: Mixer, seeds: set<Origin>, w: Worklist)
    requires m.Validated() && Connected(m, seeds, w) && Settled(m, w) && w.pending == []
    ensures LeastRouteClosed(m, seeds, {m.output} + w.tracks + w.buses)
    ensures forall r :: r in m.routes ==> (r.id in w.selected <==> Live(m, r) && Destination(m, w, r.destination))
  {
    var heard := {m.output} + w.tracks + w.buses;
    forall r | r in m.routes && Live(m, r) && r.destination in heard
      ensures r.source.origin in heard
    {
      assert Destination(m, w, r.destination);
      assert TakenUp(w, r.source.origin);
    }
    assert RouteClosed(m, seeds, heard);
  }

  method SeqOf(origins: set<Origin>) returns (listed: seq<Origin>)
    ensures forall origin :: origin in listed <==> origin in origins
  {
    listed := [];
    var rest := origins;
    while rest != {}
      invariant forall origin :: origin in listed <==> origin in origins && origin !in rest
    {
      var origin :| origin in rest;
      rest := rest - {origin};
      listed := listed + [origin];
    }
  }

  // ------------------------------------------------------------------ sidechains

  function BusTaps(m: Mixer, sidechains: set<nat>): set<Origin> {
    set s | s in m.sidechains && s.id in sidechains && s.source.origin.Bus? :: s.source.origin
  }

  function TrackTaps(m: Mixer, sidechains: set<nat>): set<Origin> {
    set s | s in m.sidechains && s.id in sidechains && s.source.origin.Track? :: s.source.origin
  }

  /** Strips that a selected Route or sidechain taps behind the pre-fader point; the output is always whole. */
  function Behind(m: Mixer, routes: set<nat>, sidechains: set<nat>): set<Origin> {
    {m.output}
    + (set r | r in m.routes && r.id in routes && r.source.port != PreFader :: r.source.origin)
    + (set s | s in m.sidechains && s.id in sidechains && s.source.port != PreFader :: s.source.origin)
  }

  function NextSidechains(m: Mixer, f: Facts): set<nat> {
    set s | s in m.sidechains && s.enabled && Acts(m, f, s.processor) && !Silenced(m, s.source) :: s.id
  }

  /** The facts that one pass derives from a set of sidechains. */
  ghost predicate Derived(m: Mixer, routes: set<nat>, core: set<Origin>, f: Facts) {
    && LeastRouteClosed(m, BusTaps(m, f.sidechains), core)
    && f.heard == core + TrackTaps(m, f.sidechains)
    && (forall r :: r in m.routes ==> (r.id in routes <==> Live(m, r) && r.destination in f.heard))
    && f.behind == Behind(m, routes, f.sidechains)
  }

  /** More sidechains derive more facts. */
  lemma PassIsMonotone(m: Mixer, routes: set<nat>, core: set<Origin>, f: Facts, routes': set<nat>, core': set<Origin>, g: Facts)
    requires Derived(m, routes, core, f) && Derived(m, routes', core', g) && f.sidechains <= g.sidechains
    ensures Within(f, g) && NextSidechains(m, f) <= NextSidechains(m, g)
  {
    assert RouteClosed(m, BusTaps(m, f.sidechains), core');
    hide LeastRouteClosed, RouteClosed, Live, Silenced;
    assert f.behind <= g.behind;
    ActsMonotone(m, f, g);
  }

  lemma ActsMonotone(m: Mixer, f: Facts, g: Facts)
    requires Within(f, g)
    ensures NextSidechains(m, f) <= NextSidechains(m, g)
  {
    forall s | s in m.sidechains && Acts(m, f, s.processor)
      ensures Acts(m, g, s.processor)
    {}
  }

  /** No pass goes beyond any facts that obey the rules. */
  lemma PassStaysBelow(m: Mixer, routes: set<nat>, core: set<Origin>, f: Facts, g: Facts)
    requires Derived(m, routes, core, f) && Closed(m, g) && f.sidechains <= g.sidechains
    ensures Within(f, g) && NextSidechains(m, f) <= g.sidechains
  {
    assert BusTaps(m, f.sidechains) <= g.heard;
    assert RouteClosed(m, BusTaps(m, f.sidechains), g.heard);
    assert f.behind <= g.behind;
    ActsMonotone(m, f, g);
  }

  /** A pass that derives the sidechains it started from obeys the rules. */
  lemma StableObeysRules(m: Mixer, routes: set<nat>, core: set<Origin>, f: Facts)
    requires m.Validated() && Derived(m, routes, core, f) && NextSidechains(m, f) == f.sidechains
    ensures Closed(m, f)
  {
    hide Acts, Silenced, Attended, Carries, Live;
    LiveCarries(m);
    forall r | r in m.routes && Carries(m, r.enabled, r.source) && r.destination in f.heard
      ensures HeardThrough(f, r.source)
    {
      assert r.destination in core && r.id in routes;
    }
    forall s | s in m.sidechains && Carries(m, s.enabled, s.source) && Attended(m, f, s.processor)
      ensures s.id in f.sidechains
    {
      ActsIsAttended(m, f, s.processor);
    }
    forall s | s in m.sidechains && s.id in f.sidechains
      ensures HeardThrough(f, s.source)
    {
      assert s.source.origin in BusTaps(m, f.sidechains) + TrackTaps(m, f.sidechains);
    }
  }

  lemma PassDerives(m: Mixer, routes: set<nat>, tracks: set<Origin>, buses: set<Origin>, f: Facts)
    requires m.Validated() && LeastRouteClosed(m, BusTaps(m, f.sidechains), {m.output} + tracks + buses)
    requires forall origin :: origin in tracks ==> origin.Track?
    requires forall r :: r in m.routes ==> (r.id in routes <==> Live(m, r) && (r.destination == m.output || r.destination in buses))
    requires f.heard == {m.output} + tracks + TrackTaps(m, f.sidechains) + buses && f.behind == Behind(m, routes, f.sidechains)
    ensures Derived(m, routes, {m.output} + tracks + buses, f)
    ensures forall r :: r in m.routes ==> (r.id in routes <==> Live(m, r) && r.destination in f.heard)
  {
    hide LeastRouteClosed, Live;
  }

  lemma OnlyKnown(m: Mixer, f: Facts)
    ensures NextSidechains(m, f) <= set s | s in m.sidechains :: s.id
  {}

  /** Repeat until the selected sidechains select themselves. The result is the least set of facts that
      obeys the rules of influence, so nothing else can be heard, and the loop ends because each pass
      selects more than the one before. */
  method SelectSidechains(m: Mixer) returns (routes: set<nat>, f: Facts)
    requires m.Validated()
    ensures Closed(m, f) && forall g: Facts :: Closed(m, g) ==> Within(f, g)
    ensures forall r :: r in m.routes ==> (r.id in routes <==> Carries(m, r.enabled, r.source) && r.destination in f.heard)
  {
    hide Closed, Derived, NextSidechains, LeastRouteClosed;
    var sidechains: set<nat>, busTaps: set<Origin>, trackTaps: set<Origin> := {}, {}, {};
    ghost var all := set s | s in m.sidechains :: s.id;
    ghost var lastRoutes: set<nat>, lastCore: set<Origin>, last: Facts := {}, {}, Facts({}, {}, {});
    while true
      invariant busTaps == BusTaps(m, sidechains) && trackTaps == TrackTaps(m, sidechains) && sidechains <= all
      invariant sidechains == {} || (Derived(m, lastRoutes, lastCore, last) && sidechains == NextSidechains(m, last) && last.sidechains <= sidechains)
      invariant forall g: Facts :: Closed(m, g) ==> sidechains <= g.sidechains
      decreases all - sidechains
    {
      var tracks, buses;
      routes, tracks, buses := ResolveSignalClosure(m, busTaps);
      ghost var core := {m.output} + tracks + buses;
      f := Facts({m.output} + tracks + trackTaps + buses, Behind(m, routes, sidechains), sidechains);
      var next := NextSidechains(m, f);
      PassDerives(m, routes, tracks, buses, f);
      if sidechains != {} {
        PassIsMonotone(m, lastRoutes, lastCore, last, routes, core, f);
      }
      forall g | Closed(m, g)
        ensures Within(f, g) && next <= g.sidechains
      {
        PassStaysBelow(m, routes, core, f, g);
      }
      OnlyKnown(m, f);
      if next == sidechains && BusTaps(m, next) == busTaps && TrackTaps(m, next) == trackTaps {
        StableObeysRules(m, routes, core, f);
        break;
      }
      lastRoutes, lastCore, last := routes, core, f;
      sidechains, busTaps, trackTaps := next, BusTaps(m, next), TrackTaps(m, next);
    }
  }
}
