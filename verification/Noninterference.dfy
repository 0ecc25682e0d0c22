/** Two programs that agree on everything that can reach the output sound the same: what is not selected, and how a gain
    is written down, does not matter. */
module Noninterference {
  import opened Frames
  import opened Graph
  import opened Processors
  import opened SourceFrames
  import opened Schedule
  import opened Compensation
  import opened Transparency
  import opened Preparation
  import opened Tails
  import opened ProgramMix

  /** Two gains that are the same number at every signal sample. */
  ghost predicate SameGain(a: Gain, b: Gain) {
    forall t: int :: a.At(t) == b.At(t)
  }

  ghost predicate SameEdit(a: EditGain, b: EditGain) {
    forall t: int :: a.At(t) == b.At(t)
  }

  // ------------------------------------------------------------------ what arrives at a sum

  /** One tapped signal that is added under a gain. */
  datatype Feed = Feed(source: nat, port: Port, gain: Gain)

  /** A muted strip carries nothing behind its mute. */
  ghost predicate Muted<S(!new)>(p: Program<S>, source: nat, port: Port) {
    source < |p.strips| && p.strips[source].muted && port == PostMute
  }

  /** The Routes whose taps are not muted, in order. */
  ghost function RouteFeeds<S(!new)>(p: Program<S>, routes: seq<PlannedRoute>): (feeds: seq<Feed>) {
    if |routes| == 0 then [] else
    var route := routes[|routes| - 1];
    RouteFeeds(p, routes[..|routes| - 1]) + if Muted(p, route.source, route.port) then [] else [Feed(route.source, route.port, route.gain)]
  }

  /** The sidechain Routes into one auxiliary bus whose taps are not muted, in order. */
  ghost function SidechainFeeds<S(!new)>(p: Program<S>, sidechains: seq<SidechainRoute>, bus: nat): (feeds: seq<Feed>) {
    if |sidechains| == 0 then [] else
    var route := sidechains[|sidechains| - 1];
    SidechainFeeds(p, sidechains[..|sidechains| - 1], bus)
    + if route.bus != bus || Muted(p, route.source, route.port) then [] else [Feed(route.source, route.port, route.gain)]
  }

  ghost predicate Before(feeds: seq<Feed>, n: nat) {
    forall i :: 0 <= i < |feeds| ==> feeds[i].source < n
  }

  ghost function Sum<S(!new)>(p: Program<S>, signal: (nat, int) -> Frame, entry: int, feeds: seq<Feed>, t: int): Frame
    requires Acyclic(p) && Before(feeds, |p.strips|)
  {
    if |feeds| == 0 then Silence(p.channels) else
    var feed := feeds[|feeds| - 1];
    Add(Sum(p, signal, entry, feeds[..|feeds| - 1], t), Scale(MixedPort(p, signal, entry, feed.source, feed.port, t), feed.gain.At(t)))
  }

  lemma SumStep<S(!new)>(p: Program<S>, signal: (nat, int) -> Frame, entry: int, feeds: seq<Feed>, feed: Feed, t: int)
    requires Acyclic(p) && Before(feeds, |p.strips|) && feed.source < |p.strips|
    ensures Before(feeds + [feed], |p.strips|)
    ensures Sum(p, signal, entry, feeds + [feed], t)
            == Add(Sum(p, signal, entry, feeds, t), Scale(MixedPort(p, signal, entry, feed.source, feed.port, t), feed.gain.At(t)))
  {
    hide MixedPort, Acyclic;
    assert (feeds + [feed])[..|feeds|] == feeds;
  }

  lemma {:induction false} SumLength<S(!new)>(p: Program<S>, signal: (nat, int) -> Frame, entry: int, feeds: seq<Feed>, t: int)
    requires Acyclic(p) && Before(feeds, |p.strips|)
    ensures |Sum(p, signal, entry, feeds, t)| == p.channels
    decreases |feeds|
  {
    hide MixedPort, Acyclic;
    if |feeds| > 0 {
      SumLength(p, signal, entry, feeds[..|feeds| - 1], t);
    }
  }

  /** Adding a muted tap changes nothing. */
  lemma MutedAddsNothing<S(!new)>(p: Program<S>, signal: (nat, int) -> Frame, entry: int, feeds: seq<Feed>, source: nat, port: Port, gain: real, t: int)
    requires Acyclic(p) && Before(feeds, |p.strips|) && source < |p.strips| && Muted(p, source, port)
    ensures var sum := Sum(p, signal, entry, feeds, t);
            Add(sum, Scale(MixedPort(p, signal, entry, source, port, t), gain)) == sum
  {
    hide Sum, Acyclic, MixedRackOutput;
    ScaleSilence(p.channels, gain);
    AddSilence(Sum(p, signal, entry, feeds, t), p.channels);
  }

  ghost predicate Sourced<S(!new)>(p: Program<S>, routes: seq<PlannedRoute>, n: nat) {
    forall i :: 0 <= i < |routes| ==> routes[i].source < n
  }

  lemma {:induction false} FeedsBefore<S(!new)>(p: Program<S>, routes: seq<PlannedRoute>, n: nat)
    requires Sourced(p, routes, n)
    ensures Before(RouteFeeds(p, routes), n)
    decreases |routes|
  {
    if |routes| > 0 {
      FeedsBefore(p, routes[..|routes| - 1], n);
    }
  }

  lemma RoutesSourced<S(!new)>(p: Program<S>, n: nat)
    requires Acyclic(p) && n < |p.strips|
    ensures Sourced(p, RoutesInto(p.routes, n), n)
  {
    hide RoutesInto;
    forall i | 0 <= i < |RoutesInto(p.routes, n)|
      ensures RoutesInto(p.routes, n)[i].source < n
    {
      IntoIsPlanned(p.routes, n, i);
    }
  }

  /** The Routes into a strip add up to the taps among them that are not muted. */
  lemma {:induction false} RoutesAreFeeds<S(!new)>(p: Program<S>, signal: (nat, int) -> Frame, entry: int, n: nat, hi: nat, t: int)
    requires Acyclic(p) && n < |p.strips| && hi <= |RoutesInto(p.routes, n)|
    ensures var feeds := RouteFeeds(p, RoutesInto(p.routes, n)[..hi]);
            Before(feeds, n) && MixedRoutes(p, signal, entry, n, hi, t) == Sum(p, signal, entry, feeds, t)
    decreases hi
  {
    hide MixedPort, Acyclic, RoutesInto, Sum, Muted;
    var into := RoutesInto(p.routes, n);
    RoutesSourced(p, n);
    FeedsBefore(p, into[..hi], n);
    if hi > 0 {
      RoutesAreFeeds(p, signal, entry, n, hi - 1, t);
      assert into[..hi][..hi - 1] == into[..hi - 1];
      var before, route := RouteFeeds(p, into[..hi - 1]), into[hi - 1];
      if Muted(p, route.source, route.port) {
        MutedAddsNothing(p, signal, entry, before, route.source, route.port, route.gain.At(t), t);
        assert before + [] == before;
      } else {
        SumStep(p, signal, entry, before, Feed(route.source, route.port, route.gain), t);
      }
    } else {
      assert Sum(p, signal, entry, [], t) == Silence(p.channels) by { SumOfNone(p, signal, entry, t); }
    }
  }

  lemma SumOfNone<S(!new)>(p: Program<S>, signal: (nat, int) -> Frame, entry: int, t: int)
    requires Acyclic(p)
    ensures Sum(p, signal, entry, [], t) == Silence(p.channels)
  {}

  lemma {:induction false} SidechainFeedsBefore<S(!new)>(p: Program<S>, sidechains: seq<SidechainRoute>, bus: nat, n: nat)
    requires LeadBefore(sidechains, n)
    ensures Before(SidechainFeeds(p, sidechains, bus), n)
    decreases |sidechains|
  {
    if |sidechains| > 0 {
      SidechainFeedsBefore(p, sidechains[..|sidechains| - 1], bus, n);
    }
  }

  /** And so do the sidechain Routes into one auxiliary bus. */
  lemma {:induction false} SidechainsAreFeeds<S(!new)>(p: Program<S>, signal: (nat, int) -> Frame, entry: int, n: nat, behind: bool, j: nat, hi: nat, bus: nat, t: int)
    requires Acyclic(p) && n < |p.strips| && j < |p.strips[n].RackAt(behind)| && hi <= |p.strips[n].RackAt(behind)[j].sidechains|
    ensures var feeds := SidechainFeeds(p, p.strips[n].RackAt(behind)[j].sidechains[..hi], bus);
            Before(feeds, n) && MixedSidechains(p, signal, entry, n, behind, j, hi, bus, t) == Sum(p, signal, entry, feeds, t)
    decreases hi
  {
    hide MixedPort, Sum, Muted;
    var sidechains := p.strips[n].RackAt(behind)[j].sidechains;
    assert LeadBefore(sidechains, n);
    SidechainFeedsBefore(p, sidechains[..hi], bus, n);
    if hi > 0 {
      SidechainsAreFeeds(p, signal, entry, n, behind, j, hi - 1, bus, t);
      assert sidechains[..hi][..hi - 1] == sidechains[..hi - 1];
      var before, route := SidechainFeeds(p, sidechains[..hi - 1], bus), sidechains[hi - 1];
      if route.bus != bus {
        assert before + [] == before;
      } else if Muted(p, route.source, route.port) {
        MutedAddsNothing(p, signal, entry, before, route.source, route.port, route.gain.At(t), t);
        assert before + [] == before;
      } else {
        SumStep(p, signal, entry, before, Feed(route.source, route.port, route.gain), t);
      }
    } else {
      SumOfNone(p, signal, entry, t);
    }
  }

  // ------------------------------------------------------------------ what two programs have to agree on

  /** Strips that are heard, and those among them that are heard behind the fader. */
  datatype Reach = Reach(heard: set<nat>, behind: set<nat>)

  ghost predicate Reaches(reach: Reach, n: nat, port: Port) {
    n in reach.heard && (port != PreFader ==> n in reach.behind)
  }

  ghost predicate SameFeeds(a: seq<Feed>, b: seq<Feed>) {
    |a| == |b| && forall i :: 0 <= i < |a| ==> a[i].source == b[i].source && a[i].port == b[i].port && SameGain(a[i].gain, b[i].gain)
  }

  ghost predicate AllReached(reach: Reach, feeds: seq<Feed>) {
    forall i :: 0 <= i < |feeds| ==> Reaches(reach, feeds[i].source, feeds[i].port)
  }

  /** The same processors in the same order, which hear the same sidechains. */
  ghost predicate SameRack<S(!new)>(p: Program<S>, q: Program<S>, a: seq<PlannedProcessor<S>>, b: seq<PlannedProcessor<S>>) {
    && |a| == |b|
    && forall j :: 0 <= j < |a| ==>
         && a[j].processor == b[j].processor && a[j].buses == b[j].buses
         && forall bus {:trigger SidechainFeeds(p, a[j].sidechains, bus)} :: 0 <= bus < a[j].buses ==>
              SameFeeds(SidechainFeeds(p, a[j].sidechains, bus), SidechainFeeds(q, b[j].sidechains, bus))
  }

  ghost predicate RackReached<S(!new)>(p: Program<S>, reach: Reach, rack: seq<PlannedProcessor<S>>) {
    forall j, bus {:trigger SidechainFeeds(p, rack[j].sidechains, bus)} :: 0 <= j < |rack| && 0 <= bus < rack[j].buses ==>
      AllReached(reach, SidechainFeeds(p, rack[j].sidechains, bus))
  }

  ghost predicate SameContributionPlan<S>(a: PlannedContribution<S>, b: PlannedContribution<S>) {
    && a.start == b.start && a.end == b.end && a.timeMap == b.timeMap
    && SameGain(a.scopeGain, b.scopeGain) && SameEdit(a.editGain, b.editGain)
    && a.processors == b.processors && a.tails == b.tails
  }

  /** Contribution `k` belongs to strip `n` in both programs or in neither, and then it plays the same source. */
  ghost predicate SameSource<S(!new)>(p: Program<S>, q: Program<S>, a: (nat, int) -> Frame, b: (nat, int) -> Frame, n: nat, k: nat)
    requires k < |p.contributions| == |q.contributions|
  {
    && (p.contributions[k].track == n <==> q.contributions[k].track == n)
    && (p.contributions[k].track == n ==>
          SameContributionPlan(p.contributions[k], q.contributions[k]) && forall f: int :: a(k, f) == b(k, f))
  }

  ghost predicate SameStrip<S(!new)>(p: Program<S>, q: Program<S>, a: (nat, int) -> Frame, b: (nat, int) -> Frame, reach: Reach, n: nat)
    requires n < |p.strips| == |q.strips| && |p.contributions| == |q.contributions|
  {
    var x, y := p.strips[n], q.strips[n];
    && (x.origin.Track? <==> y.origin.Track?)
    && x.trim == y.trim && SameRack(p, q, x.pre, y.pre)
    && (if x.origin.Track? then forall k :: 0 <= k < |p.contributions| ==> SameSource(p, q, a, b, n, k)
        else SameFeeds(RouteFeeds(p, RoutesInto(p.routes, n)), RouteFeeds(q, RoutesInto(q.routes, n))))
    && (n in reach.behind ==> SameGain(x.fader, y.fader) && x.muted == y.muted && SameRack(p, q, x.post, y.post))
  }

  /** The two programs and the signals they play agree on everything that is reached. */
  ghost predicate Agree<S(!new)>(p: Program<S>, q: Program<S>, a: (nat, int) -> Frame, b: (nat, int) -> Frame, reach: Reach) {
    && p.channels == q.channels && p.rate == q.rate
    && |p.strips| == |q.strips| && |p.contributions| == |q.contributions|
    && forall n :: 0 <= n < |p.strips| && n in reach.heard ==> SameStrip(p, q, a, b, reach, n)
  }

  /** What reaches a reached strip is reached. */
  ghost predicate Supports<S(!new)>(p: Program<S>, reach: Reach) {
    forall n :: 0 <= n < |p.strips| && n in reach.heard ==>
      && (!p.strips[n].origin.Track? ==> AllReached(reach, RouteFeeds(p, RoutesInto(p.routes, n))))
      && RackReached(p, reach, p.strips[n].pre)
      && (n in reach.behind ==> RackReached(p, reach, p.strips[n].post))
  }

  ghost function UpTo(n: nat): (indices: set<nat>)
    ensures forall i: nat :: i in indices <==> i < n
  {
    if n == 0 then {} else UpTo(n - 1) + {n - 1}
  }

  /** The same strips are muted. */
  ghost predicate SameMutes<S(!new)>(p: Program<S>, q: Program<S>) {
    |p.strips| == |q.strips| && forall n :: 0 <= n < |p.strips| ==> p.strips[n].muted == q.strips[n].muted
  }

  lemma {:induction false} SameMutesSameRoutes<S(!new)>(p: Program<S>, q: Program<S>, routes: seq<PlannedRoute>)
    requires SameMutes(p, q)
    ensures RouteFeeds(p, routes) == RouteFeeds(q, routes)
    decreases |routes|
  {
    if |routes| > 0 {
      SameMutesSameRoutes(p, q, routes[..|routes| - 1]);
    }
  }

  lemma {:induction false} SameMutesSameSidechains<S(!new)>(p: Program<S>, q: Program<S>, sidechains: seq<SidechainRoute>, bus: nat)
    requires SameMutes(p, q)
    ensures SidechainFeeds(p, sidechains, bus) == SidechainFeeds(q, sidechains, bus)
    decreases |sidechains|
  {
    if |sidechains| > 0 {
      SameMutesSameSidechains(p, q, sidechains[..|sidechains| - 1], bus);
    }
  }

  lemma RackItself<S(!new)>(p: Program<S>, q: Program<S>, rack: seq<PlannedProcessor<S>>)
    requires SameMutes(p, q)
    ensures SameRack(p, q, rack, rack)
  {
    hide SidechainFeeds;
    forall j, bus: nat | 0 <= j < |rack|
      ensures SidechainFeeds(p, rack[j].sidechains, bus) == SidechainFeeds(q, rack[j].sidechains, bus)
    {
      SameMutesSameSidechains(p, q, rack[j].sidechains, bus);
    }
  }

  ghost predicate Twins<S(!new)>(p: Program<S>, q: Program<S>, a: (nat, int) -> Frame, b: (nat, int) -> Frame, reach: Reach) {
    Acyclic(p) && Acyclic(q) && Agree(p, q, a, b, reach) && Supports(p, reach)
  }

  lemma StripOf<S(!new)>(p: Program<S>, q: Program<S>, a: (nat, int) -> Frame, b: (nat, int) -> Frame, reach: Reach, n: nat)
    requires Twins(p, q, a, b, reach) && n < |p.strips| && n in reach.heard
    ensures Acyclic(p) && Acyclic(q) && p.channels == q.channels && p.rate == q.rate
    ensures |p.strips| == |q.strips| && |p.contributions| == |q.contributions| && SameStrip(p, q, a, b, reach, n)
  {
    hide Acyclic, Supports, SameStrip;
  }

  // ------------------------------------------------------------------ then they sound the same

  lemma SameScopeInput<S(!new)>(p: Program<S>, q: Program<S>, a: (nat, int) -> Frame, b: (nat, int) -> Frame, n: nat, k: nat, start: int, length: nat)
    requires p.Compiled() && q.Compiled() && p.channels == q.channels && p.rate == q.rate
    requires k < |p.contributions| == |q.contributions| && p.contributions[k].track == n && SameSource(p, q, a, b, n, k)
    ensures MixedScopeInput(p, a, k, start, length) == MixedScopeInput(q, b, k, start, length)
    ensures SilentSidechains(p.contributions[k].processors, p.channels, length) == SilentSidechains(q.contributions[k].processors, q.channels, length)
  {
    var c := p.contributions[k];
    assert p.ContributionCompiled(c) && q.ContributionCompiled(q.contributions[k]);
    var one, other := MixedScopeInput(p, a, k, start, length), MixedScopeInput(q, b, k, start, length);
    forall i | 0 <= i < length
      ensures one[i] == other[i]
    {
      var f := Demand(c.timeMap, p.rate, c.start, c.end, start + i);
      assert c.scopeGain.At(start + i) == q.contributions[k].scopeGain.At(start + i);
      if f >= 0 {
        assert a(k, f) == b(k, f);
      }
    }
    var silent, other' := SilentSidechains(c.processors, p.channels, length), SilentSidechains(q.contributions[k].processors, q.channels, length);
    forall j | 0 <= j < |silent|
      ensures silent[j] == other'[j]
    {}
  }

  lemma AgreeContribution<S(!new)>(p: Program<S>, q: Program<S>, a: (nat, int) -> Frame, b: (nat, int) -> Frame, entry: int, n: nat, k: nat, t: int)
    requires p.Compiled() && q.Compiled() && p.channels == q.channels && p.rate == q.rate
    requires k < |p.contributions| == |q.contributions| && p.contributions[k].track == n && SameSource(p, q, a, b, n, k)
    ensures MixedContribution(p, a, entry, k, t) == MixedContribution(q, b, entry, k, t)
  {
    hide MixedScopeInput, SilentSidechains, Advanced, Slots, PrefixLatency, RackKeepsTails, Endless, AllFrames, Program.Compiled;
    var c, d := p.contributions[k], q.contributions[k];
    var start := Max(entry, c.start);
    assert c.editGain.At(t) == d.editGain.At(t);
    if t >= start {
      SameScopeInput(p, q, a, b, n, k, start, t - start + 1 + PrefixLatency(c.processors));
    }
  }

  lemma {:induction false} AgreeContributions<S(!new)>(p: Program<S>, q: Program<S>, a: (nat, int) -> Frame, b: (nat, int) -> Frame, entry: int, n: nat, hi: nat, t: int)
    requires p.Compiled() && q.Compiled() && p.channels == q.channels && p.rate == q.rate
    requires |p.contributions| == |q.contributions| && hi <= |p.contributions|
    requires forall k :: 0 <= k < |p.contributions| ==> SameSource(p, q, a, b, n, k)
    ensures MixedContributions(p, a, entry, n, hi, t) == MixedContributions(q, b, entry, n, hi, t)
    decreases hi
  {
    hide MixedContribution, Program.Compiled;
    if hi > 0 {
      AgreeContributions(p, q, a, b, entry, n, hi - 1, t);
      assert SameSource(p, q, a, b, n, hi - 1);
      if p.contributions[hi - 1].track == n {
        AgreeContribution(p, q, a, b, entry, n, hi - 1, t);
      }
    }
  }

  lemma {:induction false} AgreeSum<S(!new)>(p: Program<S>, q: Program<S>, a: (nat, int) -> Frame, b: (nat, int) -> Frame, reach: Reach, entry: int,
                                             n: nat, feeds: seq<Feed>, others: seq<Feed>, t: int)
    requires Twins(p, q, a, b, reach) && n <= |p.strips| && Before(feeds, n) && SameFeeds(feeds, others) && AllReached(reach, feeds)
    ensures Acyclic(p) && Acyclic(q) && Before(feeds, |p.strips|) && Before(others, |q.strips|)
    ensures Sum(p, a, entry, feeds, t) == Sum(q, b, entry, others, t)
    decreases n, 0, |feeds|
  {
    hide MixedPort, Acyclic, Supports, SameStrip;
    if |feeds| > 0 {
      AgreeSum(p, q, a, b, reach, entry, n, feeds[..|feeds| - 1], others[..|others| - 1], t);
      var feed, other := feeds[|feeds| - 1], others[|others| - 1];
      assert feed.gain.At(t) == other.gain.At(t) && Reaches(reach, feed.source, feed.port);
      AgreePort(p, q, a, b, reach, entry, feed.source, feed.port, t);
    }
  }

  lemma {:induction false} AgreeInput<S(!new)>(p: Program<S>, q: Program<S>, a: (nat, int) -> Frame, b: (nat, int) -> Frame, reach: Reach, entry: int, n: nat, t: int)
    requires Twins(p, q, a, b, reach) && n < |p.strips| && n in reach.heard
    ensures Acyclic(p) && Acyclic(q) && n < |q.strips| && MixedInput(p, a, entry, n, t) == MixedInput(q, b, entry, n, t)
    decreases n, 1
  {
    hide MixedContributions, MixedRoutes, RoutesInto, RouteFeeds, SameRack, RackReached, Sum;
    StripOf(p, q, a, b, reach, n);
    if p.strips[n].origin.Track? {
      AgreeContributions(p, q, a, b, entry, n, |p.contributions|, t);
    } else {
      var into, other := RoutesInto(p.routes, n), RoutesInto(q.routes, n);
      RoutesAreFeeds(p, a, entry, n, |into|, t);
      RoutesAreFeeds(q, b, entry, n, |other|, t);
      assert into[..|into|] == into && other[..|other|] == other;
      AgreeSum(p, q, a, b, reach, entry, n, RouteFeeds(p, into), RouteFeeds(q, other), t);
    }
  }

  /** A rack is reached when its strip is, and behind the fader only when the strip is heard there. */
  ghost predicate RackHeard(reach: Reach, n: nat, behind: bool) {
    n in reach.heard && (behind ==> n in reach.behind)
  }

  lemma RackOfStrip<S(!new)>(p: Program<S>, q: Program<S>, a: (nat, int) -> Frame, b: (nat, int) -> Frame, reach: Reach, n: nat, behind: bool)
    requires Twins(p, q, a, b, reach) && n < |p.strips| && RackHeard(reach, n, behind)
    ensures Acyclic(p) && Acyclic(q) && n < |q.strips| && p.channels == q.channels
    ensures SameRack(p, q, p.strips[n].RackAt(behind), q.strips[n].RackAt(behind)) && RackReached(p, reach, p.strips[n].RackAt(behind))
  {
    hide Acyclic, SameRack, RackReached, RouteFeeds, RoutesInto;
    StripOf(p, q, a, b, reach, n);
  }

  lemma {:induction false} AgreeAux<S(!new)>(p: Program<S>, q: Program<S>, a: (nat, int) -> Frame, b: (nat, int) -> Frame, reach: Reach, entry: int,
                                             n: nat, behind: bool, j: nat, t: int)
    requires Twins(p, q, a, b, reach) && n < |p.strips| && RackHeard(reach, n, behind) && j < |p.strips[n].RackAt(behind)|
    ensures Acyclic(p) && Acyclic(q) && n < |q.strips| && j < |q.strips[n].RackAt(behind)|
    ensures MixedAux(p, a, entry, n, behind, j, t) == MixedAux(q, b, entry, n, behind, j, t)
    decreases n, 1
  {
    hide MixedSidechains, Sum, SidechainFeeds, Acyclic, Supports, SameStrip;
    RackOfStrip(p, q, a, b, reach, n, behind);
    var x, y := p.strips[n].RackAt(behind)[j], q.strips[n].RackAt(behind)[j];
    forall bus | 0 <= bus < x.buses
      ensures MixedAux(p, a, entry, n, behind, j, t)[bus] == MixedAux(q, b, entry, n, behind, j, t)[bus]
    {
      SidechainsAreFeeds(p, a, entry, n, behind, j, |x.sidechains|, bus, t);
      SidechainsAreFeeds(q, b, entry, n, behind, j, |y.sidechains|, bus, t);
      assert x.sidechains[..|x.sidechains|] == x.sidechains && y.sidechains[..|y.sidechains|] == y.sidechains;
      AgreeSum(p, q, a, b, reach, entry, n, SidechainFeeds(p, x.sidechains, bus), SidechainFeeds(q, y.sidechains, bus), t);
    }
  }

  lemma {:induction false} AgreeAuxes<S(!new)>(p: Program<S>, q: Program<S>, a: (nat, int) -> Frame, b: (nat, int) -> Frame, reach: Reach, entry: int,
                                               n: nat, behind: bool, length: nat)
    requires Twins(p, q, a, b, reach) && n < |p.strips| && RackHeard(reach, n, behind)
    ensures Acyclic(p) && Acyclic(q) && n < |q.strips|
    ensures MixedAuxes(p, a, entry, n, behind, length) == MixedAuxes(q, b, entry, n, behind, length)
    decreases n, 2
  {
    hide MixedAux, SidechainFeeds, Acyclic, Supports, SameStrip, Twins;
    RackOfStrip(p, q, a, b, reach, n, behind);
    var one, other := MixedAuxes(p, a, entry, n, behind, length), MixedAuxes(q, b, entry, n, behind, length);
    forall j | 0 <= j < |one|
      ensures one[j] == other[j]
    {
      forall i | 0 <= i < length
        ensures one[j][i] == other[j][i]
      {
        AgreeAux(p, q, a, b, reach, entry, n, behind, j, entry + i);
      }
    }
  }

  lemma {:induction false} AgreeRackInput<S(!new)>(p: Program<S>, q: Program<S>, a: (nat, int) -> Frame, b: (nat, int) -> Frame, reach: Reach, entry: int,
                                                   n: nat, behind: bool, t: int)
    requires Twins(p, q, a, b, reach) && n < |p.strips| && RackHeard(reach, n, behind)
    ensures Acyclic(p) && Acyclic(q) && n < |q.strips|
    ensures MixedRackInput(p, a, entry, n, behind, t) == MixedRackInput(q, b, entry, n, behind, t)
    decreases n, if behind then 6 else 2
  {
    hide MixedInput, MixedRackOutput, Acyclic, Supports, Twins, SameRack, RouteFeeds, RoutesInto;
    StripOf(p, q, a, b, reach, n);
    if behind {
      assert p.strips[n].fader.At(t) == q.strips[n].fader.At(t);
      AgreeRackOutput(p, q, a, b, reach, entry, n, false, t);
    } else {
      AgreeInput(p, q, a, b, reach, entry, n, t);
    }
  }

  lemma {:induction false} AgreeMain<S(!new)>(p: Program<S>, q: Program<S>, a: (nat, int) -> Frame, b: (nat, int) -> Frame, reach: Reach, entry: int,
                                              n: nat, behind: bool, length: nat)
    requires Twins(p, q, a, b, reach) && n < |p.strips| && RackHeard(reach, n, behind)
    ensures Acyclic(p) && Acyclic(q) && n < |q.strips|
    ensures MixedMain(p, a, entry, n, behind, length) == MixedMain(q, b, entry, n, behind, length)
    decreases n, if behind then 7 else 3
  {
    hide MixedRackInput, Acyclic, Twins, SameRack, RackReached;
    RackOfStrip(p, q, a, b, reach, n, behind);
    forall i | 0 <= i < length
      ensures MixedMain(p, a, entry, n, behind, length)[i] == MixedMain(q, b, entry, n, behind, length)[i]
    {
      AgreeRackInput(p, q, a, b, reach, entry, n, behind, entry + i);
    }
  }

  lemma {:induction false} AgreeRackOutput<S(!new)>(p: Program<S>, q: Program<S>, a: (nat, int) -> Frame, b: (nat, int) -> Frame, reach: Reach, entry: int,
                                                    n: nat, behind: bool, t: int)
    requires Twins(p, q, a, b, reach) && n < |p.strips| && RackHeard(reach, n, behind)
    ensures Acyclic(p) && Acyclic(q) && n < |q.strips|
    ensures MixedRackOutput(p, a, entry, n, behind, t) == MixedRackOutput(q, b, entry, n, behind, t)
    decreases n, if behind then 8 else 4
  {
    hide MixedMain, MixedAuxes, Advanced, PrefixLatency, Acyclic, Twins, SidechainFeeds, RackReached;
    RackOfStrip(p, q, a, b, reach, n, behind);
    if t >= entry {
      var rack, other := p.strips[n].RackAt(behind), q.strips[n].RackAt(behind);
      SameProcessors(rack, other, |rack|);
      assert rack[..|rack|] == rack && other[..|other|] == other;
      var length := t - entry + 1 + PrefixLatency(rack);
      AgreeMain(p, q, a, b, reach, entry, n, behind, length);
      AgreeAuxes(p, q, a, b, reach, entry, n, behind, length);
      SameAdvanced(Slots(rack, 0), Slots(other, 0), |rack|, entry, MixedMain(p, a, entry, n, behind, length), MixedAuxes(p, a, entry, n, behind, length));
    }
  }

  lemma {:induction false} SameProcessors<S>(rack: seq<PlannedProcessor<S>>, other: seq<PlannedProcessor<S>>, k: nat)
    requires k <= |rack| == |other| && forall j :: 0 <= j < |rack| ==> rack[j].processor == other[j].processor
    ensures PrefixLatency(rack[..k]) == PrefixLatency(other[..k])
    decreases k
  {
    if k > 0 {
      SameProcessors(rack, other, k - 1);
      PrefixStep(rack, k);
      PrefixStep(other, k);
    }
  }

  /** Programs that agree on everything that is reached carry the same at every reached port. */
  lemma {:induction false} AgreePort<S(!new)>(p: Program<S>, q: Program<S>, a: (nat, int) -> Frame, b: (nat, int) -> Frame, reach: Reach, entry: int,
                                              n: nat, port: Port, t: int)
    requires Twins(p, q, a, b, reach) && n < |p.strips| && Reaches(reach, n, port)
    ensures Acyclic(p) && Acyclic(q) && n < |q.strips|
    ensures MixedPort(p, a, entry, n, port, t) == MixedPort(q, b, entry, n, port, t)
    decreases n, 9
  {
    hide MixedRackOutput, Acyclic, Twins, SameRack, RouteFeeds, RoutesInto;
    StripOf(p, q, a, b, reach, n);
    if port == PreFader {
      AgreeRackOutput(p, q, a, b, reach, entry, n, false, t);
    } else {
      AgreeRackOutput(p, q, a, b, reach, entry, n, true, t);
    }
  }

  /** Whatever they do elsewhere, programs that agree on everything that reaches their output have the same output. */
  lemma AgreeingSoundTheSame<S(!new)>(p: Program<S>, q: Program<S>, a: (nat, int) -> Frame, b: (nat, int) -> Frame, reach: Reach, entry: int, t: int)
    requires Twins(p, q, a, b, reach) && Reaches(reach, |p.strips| - 1, PostMute)
    ensures Acyclic(p) && Acyclic(q) && ProgramOutput(p, a, entry, t) == ProgramOutput(q, b, entry, t)
  {
    hide MixedPort;
    AgreePort(p, q, a, b, reach, entry, |p.strips| - 1, PostMute, t);
  }
}
