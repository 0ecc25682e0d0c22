/** From an ordered mixer program to the dense schedule that execution relies on. */
module Preparation {
  import opened Frames
  import opened Graph
  import opened Processors
  import opened SourceFrames
  import opened Schedule
  import opened Compensation
  import opened Transparency
  import Latency
  import Scratch

  /** A sidechain Route into an auxiliary bus of the processor that lists it. */
  datatype SidechainRoute = SidechainRoute(source: nat, port: Port, bus: nat, gain: Gain)

  datatype PlannedProcessor<!S> = PlannedProcessor(processor: Processor<S>, buses: nat, sidechains: seq<SidechainRoute>)

  /** One mixer node in schedule order. */
  datatype Strip<!S> = Strip(origin: Origin, muted: bool, trim: real, fader: Gain,
                             pre: seq<PlannedProcessor<S>>, post: seq<PlannedProcessor<S>>)
  {
    function RackAt(behind: bool): seq<PlannedProcessor<S>> { if behind then post else pre }
  }

  datatype PlannedContribution<!S> = PlannedContribution(
    track: nat, start: int, end: int, timeMap: TimeMap, scopeGain: Gain, editGain: EditGain,
    sourceNeedsEntry: bool, processors: seq<PlannedProcessor<S>>, tails: seq<Tail>)

  datatype PlannedRoute = PlannedRoute(source: nat, destination: nat, port: Port, gain: Gain)

  datatype Program<!S(!new)> = Program(
    strips: seq<Strip<S>>, contributions: seq<PlannedContribution<S>>, routes: seq<PlannedRoute>,
    channels: nat, rate: int, maxBlock: nat)
  {
    /** What compilation and ordering hand on: the output is the last node, contributions are sorted by
        track, Routes lead into buses or the output, and every processor obeys the streaming law. */
    ghost predicate Compiled() {
      && |strips| > 0 && rate > 0 && maxBlock > 0
      && (forall k :: 0 <= k < |contributions| ==> ContributionCompiled(contributions[k]))
      && (forall k, l :: 0 <= k < l < |contributions| ==> contributions[k].track <= contributions[l].track)
      && (forall r :: 0 <= r < |routes| ==> routes[r].destination < |strips| && !strips[routes[r].destination].origin.Track?)
      && (forall n :: 0 <= n < |strips| ==> RackStreams(strips[n].pre) && RackStreams(strips[n].post))
    }

    ghost predicate ContributionCompiled(c: PlannedContribution<S>) {
      && c.track < |strips| && strips[c.track].origin.Track? && c.timeMap.Valid()
      && RackStreams(c.processors) && |c.tails| == |c.processors|
      && forall j :: 0 <= j < |c.processors| ==> c.processors[j].sidechains == []
    }

    ghost predicate RackStreams(rack: seq<PlannedProcessor<S>>) {
      forall j :: 0 <= j < |rack| ==> Streaming(rack[j].processor)
    }
  }

  // ------------------------------------------------------------------ racks

  function PrefixLatency<S>(rack: seq<PlannedProcessor<S>>): nat {
    if |rack| == 0 then 0 else PrefixLatency(rack[..|rack| - 1]) + rack[|rack| - 1].processor.latency
  }

  /** Processor `j` hears the rack input late by the latencies before it. */
  function Slots<S>(rack: seq<PlannedProcessor<S>>, delay: nat): (slots: seq<Slot<S>>)
    ensures |slots| == |rack|
  {
    seq(|rack|, j requires 0 <= j < |rack| => Slot(rack[j].processor, delay + PrefixLatency(rack[..j])))
  }

  lemma {:induction false} SlotsKeepLatency<S>(rack: seq<PlannedProcessor<S>>, delay: nat, j: nat)
    requires j <= |rack|
    ensures SlotLatencies(Slots(rack, delay)[..j]) == PrefixLatency(rack[..j])
    decreases j
  {
    if j > 0 {
      SlotsKeepLatency(rack, delay, j - 1);
      assert Slots(rack, delay)[..j][..j - 1] == Slots(rack, delay)[..j - 1];
      assert rack[..j][..j - 1] == rack[..j - 1];
    }
  }

  lemma AllSlotsKeepLatency<S>(rack: seq<PlannedProcessor<S>>, delay: nat)
    ensures SlotLatencies(Slots(rack, delay)) == PrefixLatency(rack)
  {
    SlotsKeepLatency(rack, delay, |rack|);
    assert Slots(rack, delay)[..|rack|] == Slots(rack, delay) && rack[..|rack|] == rack;
  }

  function RackTail(tails: seq<Tail>): Tail {
    if |tails| == 0 then NoTail else AccumulateTail(RackTail(tails[..|tails| - 1]), tails[|tails| - 1])
  }

  function Buses<S>(rack: seq<PlannedProcessor<S>>): (buses: seq<nat>)
    ensures |buses| == |rack|
  {
    seq(|rack|, j requires 0 <= j < |rack| => rack[j].buses)
  }

  // ------------------------------------------------------------------ ranges

  datatype Range = Range(start: nat, end: nat)

  /** Walk over the contributions of one track. */
  method BehindTrack<S(!new)>(p: Program<S>, n: nat, start: nat) returns (cursor: nat)
    requires p.Compiled() && start <= |p.contributions|
    requires forall k :: 0 <= k < |p.contributions| ==> (k < start <==> p.contributions[k].track < n)
    ensures start <= cursor <= |p.contributions|
    ensures forall k :: 0 <= k < |p.contributions| ==> (k < cursor <==> p.contributions[k].track < n + 1)
    ensures forall k :: 0 <= k < |p.contributions| ==> (start <= k < cursor <==> p.contributions[k].track == n)
  {
    cursor := start;
    while cursor < |p.contributions| && p.contributions[cursor].track == n
      invariant start <= cursor <= |p.contributions|
      invariant forall k :: start <= k < cursor ==> p.contributions[k].track == n
    {
      cursor := cursor + 1;
    }
  }

  /** Every node owns the contributions of its track, and the ranges follow each other. */
  method ContributionRanges<S(!new)>(p: Program<S>) returns (ranges: seq<Range>)
    requires p.Compiled()
    ensures |ranges| == |p.strips|
    ensures forall n :: 0 <= n < |ranges| ==> ranges[n].start <= ranges[n].end <= |p.contributions|
    ensures forall n, k :: 0 <= n < |ranges| && 0 <= k < |p.contributions| ==>
              (ranges[n].start <= k < ranges[n].end <==> p.contributions[k].track == n)
    ensures forall m, n :: 0 <= m < n < |ranges| ==> ranges[m].end <= ranges[n].start
  {
    ranges := [];
    var cursor: nat := 0;
    for n := 0 to |p.strips|
      invariant |ranges| == n && cursor <= |p.contributions|
      invariant forall k :: 0 <= k < |p.contributions| ==> (k < cursor <==> p.contributions[k].track < n)
      invariant forall m :: 0 <= m < n ==> ranges[m].start <= ranges[m].end <= cursor
      invariant forall m, k :: 0 <= m < n && 0 <= k < |p.contributions| ==>
                  (ranges[m].start <= k < ranges[m].end <==> p.contributions[k].track == m)
      invariant forall l, m :: 0 <= l < m < n ==> ranges[l].end <= ranges[m].start
    {
      var start := cursor;
      cursor := BehindTrack(p, n, cursor);
      ranges := ranges + [Range(start, cursor)];
    }
  }

  function Lowered(route: PlannedRoute): Route {
    Route(route.source, route.destination, route.port, route.gain, 0)
  }

  /** Routes that were lowered so far, grouped by destination. */
  ghost predicate Grouped(routes: seq<Route>, ranges: seq<Range>) {
    && (forall r :: 0 <= r < |routes| ==> routes[r].source < routes[r].destination < |ranges|)
    && (forall n :: 0 <= n < |ranges| ==> ranges[n].start <= ranges[n].end <= |routes|)
    && (forall n, r :: 0 <= n < |ranges| && 0 <= r < |routes| ==> (ranges[n].start <= r < ranges[n].end <==> routes[r].destination == n))
  }

  /** Planned Routes with a destination below `n`, in the order in which they are lowered. */
  ghost function RoutesInto(planned: seq<PlannedRoute>, n: nat): (into: seq<PlannedRoute>) {
    if |planned| == 0 then [] else
    RoutesInto(planned[..|planned| - 1], n) + if planned[|planned| - 1].destination == n then [planned[|planned| - 1]] else []
  }

  ghost function RoutesBelow(planned: seq<PlannedRoute>, n: nat): (below: seq<PlannedRoute>) {
    if n == 0 then [] else RoutesBelow(planned, n - 1) + RoutesInto(planned, n - 1)
  }

  ghost function AllLowered(planned: seq<PlannedRoute>): (routes: seq<Route>)
    ensures |routes| == |planned|
  {
    seq(|planned|, i requires 0 <= i < |planned| => Lowered(planned[i]))
  }

  /** The Routes into one node. */
  method LowerInto(planned: seq<PlannedRoute>, n: nat) returns (ok: bool, into: seq<Route>)
    ensures ok <==> forall r :: 0 <= r < |planned| && planned[r].destination == n ==> planned[r].source < n
    ensures ok ==> into == AllLowered(RoutesInto(planned, n))
    ensures ok ==> forall r :: 0 <= r < |into| ==> into[r].source < n && into[r].destination == n
  {
    into := [];
    for i := 0 to |planned|
      invariant forall r :: 0 <= r < |into| ==> into[r].source < n && into[r].destination == n
      invariant into == AllLowered(RoutesInto(planned[..i], n))
      invariant forall r :: 0 <= r < i && planned[r].destination == n ==> planned[r].source < n
    {
      assert planned[..i + 1][..i] == planned[..i];
      if planned[i].destination == n {
        if planned[i].source >= n {
          return false, into;
        }
        into := into + [Lowered(planned[i])];
      }
    }
    assert planned[..|planned|] == planned;
    ok := true;
  }

  lemma GroupsMore(routes: seq<Route>, ranges: seq<Range>, into: seq<Route>)
    requires Grouped(routes, ranges)
    requires forall r :: 0 <= r < |into| ==> into[r].source < |ranges| && into[r].destination == |ranges|
    ensures Grouped(routes + into, ranges + [Range(|routes|, |routes + into|)])
  {}

  /** The range of every node holds the Routes into it, in their planned order. */
  ghost predicate RangesHold(planned: seq<PlannedRoute>, routes: seq<Route>, ranges: seq<Range>) {
    forall n :: 0 <= n < |ranges| ==>
      ranges[n].start <= ranges[n].end <= |routes| && routes[ranges[n].start..ranges[n].end] == AllLowered(RoutesInto(planned, n))
  }

  lemma RangesHoldMore(planned: seq<PlannedRoute>, routes: seq<Route>, ranges: seq<Range>, into: seq<Route>)
    requires RangesHold(planned, routes, ranges) && into == AllLowered(RoutesInto(planned, |ranges|))
    ensures RangesHold(planned, routes + into, ranges + [Range(|routes|, |routes + into|)])
  {
    hide AllLowered, RoutesInto;
    var more := ranges + [Range(|routes|, |routes + into|)];
    forall n | 0 <= n < |more|
      ensures (routes + into)[more[n].start..more[n].end] == AllLowered(RoutesInto(planned, n))
    {
      if n < |ranges| {
        assert (routes + into)[ranges[n].start..ranges[n].end] == routes[ranges[n].start..ranges[n].end];
      } else {
        assert (routes + into)[|routes|..|routes + into|] == into;
      }
    }
  }

  /** Group the Routes by destination, in node order. Fails only for a Route that does not lead forward. */
  method LowerRoutes<S(!new)>(p: Program<S>) returns (ok: bool, routes: seq<Route>, ranges: seq<Range>)
    requires p.Compiled()
    ensures ok <==> forall r :: 0 <= r < |p.routes| ==> p.routes[r].source < p.routes[r].destination
    ensures ok ==> |ranges| == |p.strips| && Grouped(routes, ranges) && RangesHold(p.routes, routes, ranges)
    ensures ok ==> routes == AllLowered(RoutesBelow(p.routes, |p.strips|))
    ensures ok ==> forall r :: 0 <= r < |routes| ==> routes[r].destination < |p.strips| && !p.strips[routes[r].destination].origin.Track?
  {
    hide Grouped, RoutesBelow, RoutesInto, AllLowered, RangesHold;
    routes, ranges := [], [];
    NothingGrouped(p.routes);
    for n := 0 to |p.strips|
      invariant |ranges| == n && Grouped(routes, ranges) && RangesHold(p.routes, routes, ranges)
      invariant routes == AllLowered(RoutesBelow(p.routes, n))
      invariant forall r :: 0 <= r < |routes| ==> routes[r].destination < n && !p.strips[routes[r].destination].origin.Track?
      invariant forall r :: 0 <= r < |p.routes| && p.routes[r].destination < n ==> p.routes[r].source < p.routes[r].destination
    {
      var into: seq<Route> := [];
      if !p.strips[n].origin.Track? {
        ok, into := LowerInto(p.routes, n);
        if !ok {
          return;
        }
      } else {
        NothingInto(p.routes, n);
      }
      GroupsMore(routes, ranges, into);
      RangesHoldMore(p.routes, routes, ranges, into);
      ranges := ranges + [Range(|routes|, |routes + into|)];
      BelowNext(p.routes, n);
      routes := routes + into;
    }
    ok := true;
  }

  lemma NothingGrouped(planned: seq<PlannedRoute>)
    ensures Grouped([], []) && RangesHold(planned, [], []) && [] == AllLowered(RoutesBelow(planned, 0))
  {}

  lemma BelowNext(planned: seq<PlannedRoute>, n: nat)
    ensures AllLowered(RoutesBelow(planned, n + 1)) == AllLowered(RoutesBelow(planned, n)) + AllLowered(RoutesInto(planned, n))
  {}

  lemma {:induction false} NothingInto(planned: seq<PlannedRoute>, n: nat)
    requires forall r :: 0 <= r < |planned| ==> planned[r].destination != n
    ensures RoutesInto(planned, n) == [] && AllLowered(RoutesInto(planned, n)) == []
    decreases |planned|
  {
    if |planned| > 0 {
      NothingInto(planned[..|planned| - 1], n);
    }
  }

  /** Grouping neither loses nor doubles a Route. */
  lemma {:induction false} GroupingKeepsRoutes(planned: seq<PlannedRoute>, n: nat)
    ensures forall route :: multiset(RoutesBelow(planned, n))[route] == if route.destination < n then multiset(planned)[route] else 0
    decreases n
  {
    if n > 0 {
      GroupingKeepsRoutes(planned, n - 1);
      IntoKeepsRoutes(planned, n - 1);
    }
  }

  lemma {:induction false} IntoKeepsRoutes(planned: seq<PlannedRoute>, n: nat)
    ensures forall route :: multiset(RoutesInto(planned, n))[route] == if route.destination == n then multiset(planned)[route] else 0
    decreases |planned|
  {
    if |planned| > 0 {
      IntoKeepsRoutes(planned[..|planned| - 1], n);
      assert planned == planned[..|planned| - 1] + [planned[|planned| - 1]];
    }
  }

  // ------------------------------------------------------------------ sidechain bindings

  /** The binding taps the port that the Route names, into its bus and with its gain. */
  ghost predicate Taps(binding: Binding, route: SidechainRoute, sources: seq<SidechainSource>) {
    && binding.sourceBuffer < |sources| && sources[binding.sourceBuffer] == SidechainSource(route.source, route.port)
    && binding.bus == route.bus && binding.gain == route.gain
  }

  /** The binding taps an earlier node and waits for exactly what its source lacks to the signal delay of the processor. */
  ghost predicate Bound(binding: Binding, route: SidechainRoute, n: nat, delay: nat, buses: nat, latencies: seq<NodeLatency>, sources: seq<SidechainSource>) {
    && Taps(binding, route, sources) && binding.bus < buses
    && sources[binding.sourceBuffer].node < n && sources[binding.sourceBuffer].node < |latencies|
    && binding.compensation + latencies[sources[binding.sourceBuffer].node].At(sources[binding.sourceBuffer].port) == delay
  }

  /** A sidechain can be bound when its source is an earlier node and does not arrive after the main input. */
  predicate Timely(route: SidechainRoute, n: nat, delay: nat, buses: nat, latencies: seq<NodeLatency>) {
    route.source < n && route.source < |latencies| && route.bus < buses && latencies[route.source].At(route.port) <= delay
  }

  /** One snapshot buffer for each tapped port. */
  method SourceSlot(before: seq<SidechainSource>, node: nat, port: Port) returns (slot: nat, sources: seq<SidechainSource>)
    ensures before <= sources && slot < |sources| && sources[slot] == SidechainSource(node, port)
    ensures forall s :: |before| <= s < |sources| ==> sources[s].node == node
    ensures SidechainSource(node, port) in before ==> sources == before
    ensures SidechainSource(node, port) !in before ==> sources == before + [SidechainSource(node, port)]
  {
    slot := 0;
    while slot < |before| && before[slot] != SidechainSource(node, port)
      invariant slot <= |before| && SidechainSource(node, port) !in before[..slot]
    {
      slot := slot + 1;
    }
    assert before[..|before|] == before;
    sources := if slot < |before| then before else before + [SidechainSource(node, port)];
  }

  ghost predicate ProcessorBound<S>(p: PlannedProcessor<S>, bindings: seq<Binding>, n: nat, delay: nat, latencies: seq<NodeLatency>, sources: seq<SidechainSource>) {
    && |bindings| == |p.sidechains|
    && forall b :: 0 <= b < |bindings| ==> Bound(bindings[b], p.sidechains[b], n, delay, p.buses, latencies, sources)
  }

  predicate ProcessorTimely<S>(p: PlannedProcessor<S>, n: nat, delay: nat, latencies: seq<NodeLatency>) {
    forall b :: 0 <= b < |p.sidechains| ==> Timely(p.sidechains[b], n, delay, p.buses, latencies)
  }

  /** Buffers found so far tap prepared nodes. */
  ghost predicate SourcesInside(sources: seq<SidechainSource>, nodes: nat) {
    forall s :: 0 <= s < |sources| ==> sources[s].node < nodes
  }

  method BindProcessor<S(!new)>(p: PlannedProcessor<S>, n: nat, delay: nat, latencies: seq<NodeLatency>, before: seq<SidechainSource>)
    returns (ok: bool, bindings: seq<Binding>, sources: seq<SidechainSource>)
    requires SourcesInside(before, |latencies|)
    ensures before <= sources && SourcesInside(sources, |latencies|)
    ensures ok <==> ProcessorTimely(p, n, delay, latencies)
    ensures ok ==> ProcessorBound(p, bindings, n, delay, latencies, sources)
  {
    bindings, sources := [], before;
    for b := 0 to |p.sidechains|
      invariant |bindings| == b && before <= sources && SourcesInside(sources, |latencies|)
      invariant forall i :: 0 <= i < b ==> Timely(p.sidechains[i], n, delay, p.buses, latencies)
      invariant forall i :: 0 <= i < b ==> Bound(bindings[i], p.sidechains[i], n, delay, p.buses, latencies, sources)
    {
      var route := p.sidechains[b];
      if !Timely(route, n, delay, p.buses, latencies) {
        return false, bindings, sources;
      }
      var slot, more := SourceSlot(sources, route.source, route.port);
      sources := more;
      bindings := bindings + [Binding(slot, route.gain, delay - latencies[route.source].At(route.port), route.bus)];
    }
    ok := true;
  }

  ghost predicate RackBound<S>(rack: seq<PlannedProcessor<S>>, bindings: seq<seq<Binding>>, n: nat, delay: nat, latencies: seq<NodeLatency>, sources: seq<SidechainSource>) {
    && |bindings| == |rack|
    && forall j :: 0 <= j < |rack| ==> ProcessorBound(rack[j], bindings[j], n, delay + PrefixLatency(rack[..j]), latencies, sources)
  }

  predicate RackTimely<S>(rack: seq<PlannedProcessor<S>>, n: nat, delay: nat, latencies: seq<NodeLatency>) {
    forall j :: 0 <= j < |rack| ==> ProcessorTimely(rack[j], n, delay + PrefixLatency(rack[..j]), latencies)
  }

  /** New buffers do not disturb what is bound. */
  lemma StaysBound<S>(rack: seq<PlannedProcessor<S>>, bindings: seq<seq<Binding>>, n: nat, delay: nat, latencies: seq<NodeLatency>,
                      sources: seq<SidechainSource>, more: seq<SidechainSource>)
    requires RackBound(rack, bindings, n, delay, latencies, sources) && sources <= more
    ensures RackBound(rack, bindings, n, delay, latencies, more)
  {
    forall j | 0 <= j < |rack|
      ensures ProcessorBound(rack[j], bindings[j], n, delay + PrefixLatency(rack[..j]), latencies, more)
    {
      assert ProcessorBound(rack[j], bindings[j], n, delay + PrefixLatency(rack[..j]), latencies, sources);
    }
  }

  method BindRack<S(!new)>(rack: seq<PlannedProcessor<S>>, n: nat, delay: nat, latencies: seq<NodeLatency>, before: seq<SidechainSource>)
    returns (ok: bool, bindings: seq<seq<Binding>>, sources: seq<SidechainSource>)
    requires SourcesInside(before, |latencies|)
    ensures before <= sources && SourcesInside(sources, |latencies|)
    ensures ok <==> RackTimely(rack, n, delay, latencies)
    ensures ok ==> RackBound(rack, bindings, n, delay, latencies, sources)
  {
    hide ProcessorBound, ProcessorTimely, SourcesInside;
    bindings, sources := [], before;
    assert rack[..0] == [];
    for j := 0 to |rack|
      invariant before <= sources && SourcesInside(sources, |latencies|)
      invariant RackTimely(rack[..j], n, delay, latencies)
      invariant RackBound(rack[..j], bindings, n, delay, latencies, sources)
    {
      var bound, more;
      ok, bound, more := BindProcessor(rack[j], n, delay + PrefixLatency(rack[..j]), latencies, sources);
      assert rack[..j + 1] == rack[..j] + [rack[j]];
      if !ok {
        return;
      }
      StaysBound(rack[..j], bindings, n, delay, latencies, sources, more);
      RackBoundMore(rack[..j], rack[j], bindings, bound, n, delay, latencies, more);
      bindings, sources := bindings + [bound], more;
    }
    assert rack[..|rack|] == rack;
    ok := true;
  }

  lemma RackBoundMore<S>(rack: seq<PlannedProcessor<S>>, p: PlannedProcessor<S>, bindings: seq<seq<Binding>>, bound: seq<Binding>,
                         n: nat, delay: nat, latencies: seq<NodeLatency>, sources: seq<SidechainSource>)
    requires RackBound(rack, bindings, n, delay, latencies, sources) && RackTimely(rack, n, delay, latencies)
    requires ProcessorBound(p, bound, n, delay + PrefixLatency(rack), latencies, sources)
    requires ProcessorTimely(p, n, delay + PrefixLatency(rack), latencies)
    ensures RackBound(rack + [p], bindings + [bound], n, delay, latencies, sources) && RackTimely(rack + [p], n, delay, latencies)
  {
    hide ProcessorBound, ProcessorTimely, PrefixLatency;
    var more, all := rack + [p], bindings + [bound];
    forall j | 0 <= j < |more|
      ensures ProcessorBound(more[j], all[j], n, delay + PrefixLatency(more[..j]), latencies, sources)
      ensures ProcessorTimely(more[j], n, delay + PrefixLatency(more[..j]), latencies)
    {
      assert more[..j] == if j < |rack| then rack[..j] else rack;
    }
  }

  ghost predicate StripBound<S>(strip: Strip<S>, pre: seq<seq<Binding>>, post: seq<seq<Binding>>, n: nat, latencies: seq<NodeLatency>, sources: seq<SidechainSource>)
    requires n < |latencies|
  {
    && RackBound(strip.pre, pre, n, latencies[n].input, latencies, sources)
    && RackBound(strip.post, post, n, latencies[n].preFader, latencies, sources)
  }

  predicate StripTimely<S>(strip: Strip<S>, n: nat, latencies: seq<NodeLatency>)
    requires n < |latencies|
  {
    RackTimely(strip.pre, n, latencies[n].input, latencies) && RackTimely(strip.post, n, latencies[n].preFader, latencies)
  }

  /** Bind all sidechains, in node order. */
  method BindStrips<S(!new)>(p: Program<S>, latencies: seq<NodeLatency>)
    returns (ok: bool, pre: seq<seq<seq<Binding>>>, post: seq<seq<seq<Binding>>>, sources: seq<SidechainSource>)
    requires |latencies| == |p.strips|
    ensures ok <==> forall n :: 0 <= n < |p.strips| ==> StripTimely(p.strips[n], n, latencies)
    ensures ok ==> SourcesInside(sources, |p.strips|) && |pre| == |post| == |p.strips|
    ensures ok ==> forall n :: 0 <= n < |p.strips| ==> StripBound(p.strips[n], pre[n], post[n], n, latencies, sources)
  {
    hide RackBound, RackTimely, SourcesInside;
    pre, post, sources := [], [], [];
    NoSources(|latencies|);
    for n := 0 to |p.strips|
      invariant |pre| == |post| == n && SourcesInside(sources, |latencies|)
      invariant forall m :: 0 <= m < n ==> StripTimely(p.strips[m], m, latencies)
      invariant forall m :: 0 <= m < n ==> StripBound(p.strips[m], pre[m], post[m], m, latencies, sources)
    {
      var before, behind;
      ghost var earlier := sources;
      ok, before, sources := BindRack(p.strips[n].pre, n, latencies[n].input, latencies, sources);
      if !ok {
        return;
      }
      ghost var between := sources;
      ok, behind, sources := BindRack(p.strips[n].post, n, latencies[n].preFader, latencies, sources);
      if !ok {
        return;
      }
      StaysBound(p.strips[n].pre, before, n, latencies[n].input, latencies, between, sources);
      forall m | 0 <= m < n
        ensures StripBound(p.strips[m], pre[m], post[m], m, latencies, sources)
      {
        StaysBound(p.strips[m].pre, pre[m], m, latencies[m].input, latencies, earlier, sources);
        StaysBound(p.strips[m].post, post[m], m, latencies[m].preFader, latencies, earlier, sources);
      }
      pre, post := pre + [before], post + [behind];
    }
    ok := true;
  }

  lemma NoSources(nodes: nat)
    ensures SourcesInside([], nodes)
  {}

  /** The taps of a node are the first `k` buffers that tap it. */
  ghost predicate TapsOf(taps: seq<nat>, sources: seq<SidechainSource>, n: nat, k: nat)
    requires k <= |sources|
  {
    forall s: nat :: s in taps <==> s < k && sources[s].node == n
  }

  /** Hand every buffer to the node it taps. */
  method CollectTaps(sources: seq<SidechainSource>, nodes: nat) returns (taps: seq<seq<nat>>)
    requires SourcesInside(sources, nodes)
    ensures |taps| == nodes && forall n :: 0 <= n < nodes ==> TapsOf(taps[n], sources, n, |sources|)
  {
    taps := seq(nodes, _ => []);
    for s := 0 to |sources|
      invariant |taps| == nodes && forall n :: 0 <= n < nodes ==> TapsOf(taps[n], sources, n, s)
    {
      var node := sources[s].node;
      taps := taps[node := taps[node] + [s]];
    }
  }

  // ------------------------------------------------------------------ the schedule

  function PreparedContribution<S>(c: PlannedContribution<S>, compensation: nat): Contribution<S> {
    var latency := PrefixLatency(c.processors);
    Contribution(c.track, c.start, c.end, ExecutionEnd(c.end, latency, RackTail(c.tails)), c.timeMap, 0, c.scopeGain,
                 Rack(Slots(c.processors, 0), seq(|c.processors|, _ => []), Buses(c.processors)), latency, c.editGain, compensation)
  }

  /** Everything that preparation computed for the nodes of a program. */
  datatype Parts = Parts(
    contributionRanges: seq<Range>, routes: seq<Route>, routeRanges: seq<Range>, plan: Latency.Plan,
    pre: seq<seq<seq<Binding>>>, post: seq<seq<seq<Binding>>>, sources: seq<SidechainSource>, taps: seq<seq<nat>>,
    slots: seq<nat>, slotCount: nat)

  ghost predicate PartsFit<S(!new)>(p: Program<S>, parts: Parts) {
    var n := |p.strips|;
    && |parts.contributionRanges| == |parts.routeRanges| == |parts.pre| == |parts.post| == |parts.taps| == |parts.slots| == n
    && |parts.plan.latencies| == n && |parts.plan.contributionCompensation| == |p.contributions| && |parts.plan.routeCompensation| == |parts.routes|
  }

  function PreparedNode<S>(strip: Strip<S>, latency: NodeLatency, pre: seq<seq<Binding>>, post: seq<seq<Binding>>,
                           incoming: Range, contributions: Range, slot: nat, taps: seq<nat>): Node<S> {
    Node(strip.origin, strip.muted, strip.trim, strip.fader,
         Rack(Slots(strip.pre, latency.input), pre, Buses(strip.pre)), Rack(Slots(strip.post, latency.preFader), post, Buses(strip.post)),
         incoming.start, incoming.end, contributions.start, contributions.end, latency, slot, taps)
  }

  predicate RackNeedsEntry<S>(rack: seq<PlannedProcessor<S>>) {
    exists j :: 0 <= j < |rack| && rack[j].processor.requiresStateEntry
  }

  predicate BindingsNeedEntry(bindings: seq<seq<Binding>>) {
    exists j, b :: 0 <= j < |bindings| && 0 <= b < |bindings[j]| && bindings[j][b].compensation > 0
  }

  /** Any lookahead, delay line or declared history makes state entry necessary. */
  predicate NeedsEntry<S(!new)>(p: Program<S>, parts: Parts)
    requires |parts.pre| == |parts.post| == |p.strips|
  {
    || parts.plan.outputLatency > 0 || parts.plan.maximumCompensation > 0
    || (exists k :: 0 <= k < |p.contributions| && (p.contributions[k].sourceNeedsEntry || RackNeedsEntry(p.contributions[k].processors)))
    || (exists n :: 0 <= n < |p.strips| && (RackNeedsEntry(p.strips[n].pre) || RackNeedsEntry(p.strips[n].post)))
    || (exists n :: 0 <= n < |p.strips| && (BindingsNeedEntry(parts.pre[n]) || BindingsNeedEntry(parts.post[n])))
  }

  function Assembled<S(!new)>(p: Program<S>, parts: Parts): Schedule<S>
    requires |p.strips| > 0 && PartsFit(p, parts)
  {
    Schedule(
      seq(|p.strips|, n requires 0 <= n < |p.strips| =>
        PreparedNode(p.strips[n], parts.plan.latencies[n], parts.pre[n], parts.post[n], parts.routeRanges[n], parts.contributionRanges[n], parts.slots[n], parts.taps[n])),
      seq(|parts.routes|, r requires 0 <= r < |parts.routes| => parts.routes[r].(compensation := parts.plan.routeCompensation[r])),
      seq(|p.contributions|, k requires 0 <= k < |p.contributions| => PreparedContribution(p.contributions[k], parts.plan.contributionCompensation[k])),
      parts.sources, |p.strips| - 1, p.channels, p.rate, p.maxBlock, parts.slotCount, NeedsEntry(p, parts), parts.plan.outputLatency)
  }

  /** The topology that is solved before any compensation is known. */
  function SolverTopology<S(!new)>(p: Program<S>, contributions: seq<Range>, routes: seq<Route>, incoming: seq<Range>): Latency.Topology
    requires |contributions| == |incoming| == |p.strips| > 0
  {
    Latency.Topology(
      seq(|p.strips|, n requires 0 <= n < |p.strips| =>
        Latency.LatencyNode(p.strips[n].origin, contributions[n].start, contributions[n].end, incoming[n].start, incoming[n].end,
                            PrefixLatency(p.strips[n].pre), PrefixLatency(p.strips[n].post))),
      routes,
      seq(|p.contributions|, k requires 0 <= k < |p.contributions| => PrefixLatency(p.contributions[k].processors)),
      |p.strips| - 1)
  }

  ghost function ScopeLatencies<S(!new)>(p: Program<S>): (latencies: seq<nat>)
    ensures |latencies| == |p.contributions|
  {
    seq(|p.contributions|, k requires 0 <= k < |p.contributions| => PrefixLatency(p.contributions[k].processors))
  }

  ghost function StripLatencies<S>(strips: seq<Strip<S>>): nat {
    if |strips| == 0 then 0 else
    var last := strips[|strips| - 1];
    StripLatencies(strips[..|strips| - 1]) + PrefixLatency(last.pre) + PrefixLatency(last.post)
  }

  /** Everything in the program that delays. */
  ghost function TotalLatency<S(!new)>(p: Program<S>): nat {
    Latency.Sum(ScopeLatencies(p)) + StripLatencies(p.strips)
  }

  lemma {:induction false} SameRackTotal<S(!new)>(strips: seq<Strip<S>>, nodes: seq<Latency.LatencyNode>)
    requires |nodes| == |strips|
    requires forall n :: 0 <= n < |nodes| ==> nodes[n].preRack == PrefixLatency(strips[n].pre) && nodes[n].postRack == PrefixLatency(strips[n].post)
    ensures Latency.RackTotal(nodes) == StripLatencies(strips)
    decreases |strips|
  {
    if |strips| > 0 {
      SameRackTotal(strips[..|strips| - 1], nodes[..|nodes| - 1]);
    }
  }

  /** Every Route leads to a later strip. */
  ghost predicate LeadsForward<S(!new)>(p: Program<S>) {
    forall r :: 0 <= r < |p.routes| ==> p.routes[r].source < p.routes[r].destination
  }

  /** Every sidechain taps a strip before the one whose processor it feeds. */
  ghost predicate SidechainsLeadForward<S(!new)>(p: Program<S>) {
    forall n, behind, j :: 0 <= n < |p.strips| && 0 <= j < |p.strips[n].RackAt(behind)| ==>
      LeadBefore(p.strips[n].RackAt(behind)[j].sidechains, n)
  }

  ghost predicate LeadBefore(planned: seq<SidechainRoute>, n: nat) {
    forall b :: 0 <= b < |planned| ==> planned[b].source < n
  }

  /** The latest of the first `hi` contributions, as far as they belong to track `n`. */
  ghost function LatestContribution<S(!new)>(p: Program<S>, n: nat, hi: nat): nat
    requires hi <= |p.contributions|
    decreases hi
  {
    if hi == 0 then 0 else
    var before, c := LatestContribution(p, n, hi - 1), p.contributions[hi - 1];
    if c.track == n then Later(before, PrefixLatency(c.processors)) else before
  }

  /** The latest of the first `hi` Routes at its source port, as far as they lead into strip `n`. */
  ghost function LatestRoute<S(!new)>(p: Program<S>, n: nat, hi: nat): nat
    requires LeadsForward(p) && n < |p.strips| && hi <= |p.routes|
    decreases n, 0, hi
  {
    if hi == 0 then 0 else
    var before, route := LatestRoute(p, n, hi - 1), p.routes[hi - 1];
    if route.destination == n then Later(before, StripLatency(p, route.source).At(route.port)) else before
  }

  function Later(a: nat, b: nat): nat {
    if a < b then b else a
  }

  /** How late the signal is at each port of a strip, when every sum waits for the latest of its inputs. */
  ghost function StripLatency<S(!new)>(p: Program<S>, n: nat): NodeLatency
    requires LeadsForward(p) && n < |p.strips|
    decreases n, 1
  {
    var input := if p.strips[n].origin.Track? then LatestContribution(p, n, |p.contributions|) else LatestRoute(p, n, |p.routes|);
    var preFader := input + PrefixLatency(p.strips[n].pre);
    NodeLatency(input, preFader, preFader + PrefixLatency(p.strips[n].post))
  }

  ghost function ProgramLatencies<S(!new)>(p: Program<S>): (latencies: seq<NodeLatency>)
    requires LeadsForward(p)
    ensures |latencies| == |p.strips|
  {
    seq(|p.strips|, n requires 0 <= n < |p.strips| => StripLatency(p, n))
  }

  /** Every latency of the program is a frame count. */
  ghost predicate LatencyFits<S(!new)>(p: Program<S>)
    requires LeadsForward(p)
  {
    forall n :: 0 <= n < |p.strips| ==> StripLatency(p, n).postFader < 0x1_0000_0000_0000_0000
  }

  /** No sidechain arrives after the main input of the processor it feeds. */
  ghost predicate SidechainsTimely<S(!new)>(p: Program<S>)
    requires LeadsForward(p)
  {
    forall n :: 0 <= n < |p.strips| ==> StripTimely(p.strips[n], n, ProgramLatencies(p))
  }

  /** The one reason why a program cannot be prepared, if there is any. */
  ghost function Obstacle<S(!new)>(p: Program<S>): Option<PrepareError> {
    if !LeadsForward(p) then Some(OrderViolated)
    else if !LatencyFits(p) then Some(NoLatencyPlan)
    else if !SidechainsTimely(p) then Some(SidechainNotTimely)
    else None
  }

  lemma {:induction false} LatestContributionIsMaximum<S(!new)>(p: Program<S>, n: nat, hi: nat)
    requires hi <= |p.contributions|
    ensures forall k :: 0 <= k < hi && p.contributions[k].track == n ==> PrefixLatency(p.contributions[k].processors) <= LatestContribution(p, n, hi)
    ensures LatestContribution(p, n, hi) == 0
            || exists k :: 0 <= k < hi && p.contributions[k].track == n && PrefixLatency(p.contributions[k].processors) == LatestContribution(p, n, hi)
    decreases hi
  {
    hide PrefixLatency;
    if hi > 0 {
      LatestContributionIsMaximum(p, n, hi - 1);
    }
  }

  ghost function RouteLatency<S(!new)>(p: Program<S>, route: PlannedRoute): nat
    requires LeadsForward(p) && route.source < |p.strips|
  {
    StripLatency(p, route.source).At(route.port)
  }

  lemma {:induction false} LatestRouteIsMaximum<S(!new)>(p: Program<S>, n: nat, hi: nat)
    requires LeadsForward(p) && n < |p.strips| && hi <= |p.routes|
    ensures forall r :: 0 <= r < hi && p.routes[r].destination == n ==> RouteLatency(p, p.routes[r]) <= LatestRoute(p, n, hi)
    ensures LatestRoute(p, n, hi) == 0
            || exists r :: 0 <= r < hi && p.routes[r].destination == n && RouteLatency(p, p.routes[r]) == LatestRoute(p, n, hi)
    decreases hi
  {
    hide StripLatency;
    if hi > 0 {
      LatestRouteIsMaximum(p, n, hi - 1);
    }
  }

  /** What the solver is given is laid out as the program says. */
  ghost predicate Arranged<S(!new)>(p: Program<S>, contributions: seq<Range>, routes: seq<Route>, incoming: seq<Range>) {
    && p.Compiled() && LeadsForward(p) && |contributions| == |incoming| == |p.strips|
    && Grouped(routes, incoming) && RangesHold(p.routes, routes, incoming)
    && (forall n :: 0 <= n < |p.strips| ==> contributions[n].start <= contributions[n].end <= |p.contributions|)
    && (forall n, k :: 0 <= n < |p.strips| && 0 <= k < |p.contributions| ==>
          (contributions[n].start <= k < contributions[n].end <==> p.contributions[k].track == n))
  }

  lemma TrackInput<S(!new)>(p: Program<S>, contributions: seq<Range>, routes: seq<Route>, incoming: seq<Range>, n: nat, input: nat)
    requires Arranged(p, contributions, routes, incoming) && n < |p.strips| && p.strips[n].origin.Track?
    requires Latency.IsMaximum(ScopeLatencies(p), contributions[n].start, contributions[n].end, input)
    ensures input == StripLatency(p, n).input
  {
    hide Grouped, RangesHold, PrefixLatency, Program.Compiled;
    LatestContributionIsMaximum(p, n, |p.contributions|);
    var latest, range := LatestContribution(p, n, |p.contributions|), contributions[n];
    if latest > 0 {
      var k :| 0 <= k < |p.contributions| && p.contributions[k].track == n && PrefixLatency(p.contributions[k].processors) == latest;
      assert ScopeLatencies(p)[k] <= input;
    }
    if input > 0 {
      var k: nat :| range.start <= k < range.end && ScopeLatencies(p)[k] == input;
      assert p.contributions[k].track == n;
    }
  }

  lemma IntoHolds(planned: seq<PlannedRoute>, n: nat, route: PlannedRoute)
    ensures route in RoutesInto(planned, n) <==> route in planned && route.destination == n
  {
    hide RoutesInto;
    IntoKeepsRoutes(planned, n);
    assert route in RoutesInto(planned, n) <==> route in multiset(RoutesInto(planned, n));
    assert route in planned <==> route in multiset(planned);
  }

  /** The Routes that the solver finds in one range are those that lead into the strip. */
  ghost predicate RangeHolds(planned: seq<PlannedRoute>, routes: seq<Route>, range: Range, n: nat) {
    range.start <= range.end <= |routes| && routes[range.start..range.end] == AllLowered(RoutesInto(planned, n))
  }

  lemma RangeHasRoute(planned: seq<PlannedRoute>, routes: seq<Route>, range: Range, n: nat, i: nat) returns (r: nat)
    requires RangeHolds(planned, routes, range, n) && i < |planned| && planned[i].destination == n
    ensures range.start <= r < range.end && routes[r] == Lowered(planned[i])
  {
    hide RoutesInto;
    IntoHolds(planned, n, planned[i]);
    var into := RoutesInto(planned, n);
    var j :| 0 <= j < |into| && into[j] == planned[i];
    r := range.start + j;
    assert routes[r] == routes[range.start..range.end][j] == AllLowered(into)[j];
  }

  lemma RangeIsPlanned(planned: seq<PlannedRoute>, routes: seq<Route>, range: Range, n: nat, r: nat) returns (i: nat)
    requires RangeHolds(planned, routes, range, n) && range.start <= r < range.end
    ensures i < |planned| && planned[i].destination == n && routes[r] == Lowered(planned[i])
  {
    hide RoutesInto;
    var into := RoutesInto(planned, n);
    var j := r - range.start;
    assert routes[r] == routes[range.start..range.end][j] == AllLowered(into)[j];
    IntoHolds(planned, n, into[j]);
    i :| 0 <= i < |planned| && planned[i] == into[j];
  }

  lemma RouteInput<S(!new)>(p: Program<S>, routes: seq<Route>, range: Range, n: nat, arrivals: seq<nat>, input: nat)
    requires LeadsForward(p) && n < |p.strips| && RangeHolds(p.routes, routes, range, n) && |arrivals| == |routes|
    requires forall r :: range.start <= r < range.end ==>
               routes[r].source < |p.strips| && arrivals[r] == StripLatency(p, routes[r].source).At(routes[r].port)
    requires Latency.IsMaximum(arrivals, range.start, range.end, input)
    ensures input == LatestRoute(p, n, |p.routes|)
  {
    hide AllLowered, RoutesInto, StripLatency, LatestRoute;
    LatestRouteIsMaximum(p, n, |p.routes|);
    var latest := LatestRoute(p, n, |p.routes|);
    if latest > 0 {
      var i :| 0 <= i < |p.routes| && p.routes[i].destination == n && RouteLatency(p, p.routes[i]) == latest;
      var r := RangeHasRoute(p.routes, routes, range, n, i);
      assert arrivals[r] == latest;
    }
    if input > 0 {
      var r: nat :| range.start <= r < range.end && arrivals[r] == input;
      var i := RangeIsPlanned(p.routes, routes, range, n, r);
      assert RouteLatency(p, p.routes[i]) == input;
    }
  }

  /** As far as the equations of the solver hold, its latencies are those of the program. */
  lemma {:induction false} SolvedIsProgram<S(!new)>(p: Program<S>, contributions: seq<Range>, routes: seq<Route>, incoming: seq<Range>,
                                                   n: nat, latencies: seq<NodeLatency>, compensation: seq<nat>)
    requires Arranged(p, contributions, routes, incoming) && n <= |p.strips| && n <= |latencies|
    requires |compensation| == |routes|
    requires var t := SolverTopology(p, contributions, routes, incoming);
             forall m :: 0 <= m < n ==> Latency.NodeTimed(t, m, latencies, compensation)
    ensures forall m :: 0 <= m < n ==> latencies[m] == StripLatency(p, m)
    decreases n, 0
  {
    hide Grouped, RangesHold, Program.Compiled, PrefixLatency, StripLatency;
    if n > 0 {
      SolvedIsProgram(p, contributions, routes, incoming, n - 1, latencies, compensation);
      var t := SolverTopology(p, contributions, routes, incoming);
      assert Latency.NodeTimed(t, n - 1, latencies, compensation);
      SolvedInput(p, contributions, routes, incoming, n - 1, latencies, latencies[n - 1].input);
      StripPorts(p, n - 1);
    }
  }

  lemma StripPorts<S(!new)>(p: Program<S>, n: nat)
    requires LeadsForward(p) && n < |p.strips|
    ensures var latency := StripLatency(p, n);
            && latency.preFader == latency.input + PrefixLatency(p.strips[n].pre)
            && latency.postFader == latency.preFader + PrefixLatency(p.strips[n].post)
  {}

  lemma BusInput<S(!new)>(p: Program<S>, n: nat)
    requires LeadsForward(p) && n < |p.strips| && !p.strips[n].origin.Track?
    ensures StripLatency(p, n).input == LatestRoute(p, n, |p.routes|)
  {}

  /** The input that follows from the latencies of the strips before. */
  lemma SolvedInput<S(!new)>(p: Program<S>, contributions: seq<Range>, routes: seq<Route>, incoming: seq<Range>, n: nat, latencies: seq<NodeLatency>, input: nat)
    requires Arranged(p, contributions, routes, incoming) && n < |p.strips| && n <= |latencies|
    requires forall m :: 0 <= m < n ==> latencies[m] == StripLatency(p, m)
    requires var t := SolverTopology(p, contributions, routes, incoming);
             t.RangesInside(n) && Latency.IsInput(t, n, latencies, input)
    ensures input == StripLatency(p, n).input
  {
    hide PrefixLatency, StripLatency, LatestRoute, RoutesInto, AllLowered, Program.Compiled;
    var t := SolverTopology(p, contributions, routes, incoming);
    if p.strips[n].origin.Track? {
      assert t.intrinsic == ScopeLatencies(p);
      TrackInput(p, contributions, routes, incoming, n, input);
    } else {
      var arrivals := Latency.Arrivals(t, latencies);
      forall r: nat | incoming[n].start <= r < incoming[n].end
        ensures arrivals[r] == StripLatency(p, routes[r].source).At(routes[r].port)
      {
        assert arrivals[r] == Latency.Arrival(t, latencies, r);
      }
      RouteInput(p, routes, incoming[n], n, arrivals, input);
      BusInput(p, n);
    }
  }

  lemma RefusedExceeds<S(!new)>(p: Program<S>, contributions: seq<Range>, routes: seq<Route>, incoming: seq<Range>, error: Latency.LatencyError)
    returns (n: nat, latencies: seq<NodeLatency>, compensation: seq<nat>, input: nat)
    requires Arranged(p, contributions, routes, incoming)
    requires Latency.Refused(SolverTopology(p, contributions, routes, incoming), error)
    ensures n < |p.strips| && Latency.Exceeds(SolverTopology(p, contributions, routes, incoming), n, latencies, compensation, input)
  {
    hide Latency.Exceeds;
    var t := SolverTopology(p, contributions, routes, incoming);
    n :| 0 <= n < |t.nodes| && Latency.RefusedAt(t, n, error);
    assert t.RangesInside(n);
    assert error.FrameRange?;
    latencies, compensation, input :| Latency.Exceeds(t, n, latencies, compensation, input);
  }

  /** The solver refuses the topology of a program only for a latency beyond the frame range. */
  lemma RefusedForLatency<S(!new)>(p: Program<S>, contributions: seq<Range>, routes: seq<Route>, incoming: seq<Range>, error: Latency.LatencyError)
    requires Arranged(p, contributions, routes, incoming)
    requires Latency.Refused(SolverTopology(p, contributions, routes, incoming), error)
    ensures !LatencyFits(p) && TotalLatency(p) > USIZE_MAX
  {
    hide PrefixLatency, Latency.IsInput, StripLatency, Latency.NodeTimed, RangesHold;
    var t := SolverTopology(p, contributions, routes, incoming);
    var n, latencies, compensation, input := RefusedExceeds(p, contributions, routes, incoming, error);
    SolvedIsProgram(p, contributions, routes, incoming, n, latencies, compensation);
    SolvedInput(p, contributions, routes, incoming, n, latencies, input);
    StripPorts(p, n);
    Latency.ExceedsBound(t, n);
    SameRackTotal(p.strips, t.nodes);
    assert t.intrinsic == ScopeLatencies(p);
  }

  /** A solution is the program's own and fits. */
  lemma SolvedFits<S(!new)>(p: Program<S>, contributions: seq<Range>, routes: seq<Route>, incoming: seq<Range>, plan: Latency.Plan)
    requires Arranged(p, contributions, routes, incoming)
    requires Latency.Solved(SolverTopology(p, contributions, routes, incoming), plan)
    ensures LatencyFits(p) && plan.latencies == ProgramLatencies(p)
  {
    hide Grouped, RangesHold, Program.Compiled, PrefixLatency, StripLatency;
    var t := SolverTopology(p, contributions, routes, incoming);
    forall n | 0 <= n < |p.strips|
      ensures Latency.NodeTimed(t, n, plan.latencies, plan.routeCompensation)
    {
      assert Latency.NodeSolved(t, n, plan.latencies, plan.contributionCompensation, plan.routeCompensation);
    }
    SolvedIsProgram(p, contributions, routes, incoming, |p.strips|, plan.latencies, plan.routeCompensation);
    forall n | 0 <= n < |p.strips|
      ensures StripLatency(p, n).postFader <= USIZE_MAX
    {
      assert Latency.NodeTimed(t, n, plan.latencies, plan.routeCompensation);
    }
  }

  lemma LookaheadBounded<S(!new)>(p: Program<S>, contributions: seq<Range>, routes: seq<Route>, incoming: seq<Range>, plan: Latency.Plan)
    requires |contributions| == |incoming| == |p.strips| > 0
    requires Latency.Solved(SolverTopology(p, contributions, routes, incoming), plan)
    ensures plan.outputLatency <= TotalLatency(p)
  {
    hide PrefixLatency, Latency.Solved;
    var t := SolverTopology(p, contributions, routes, incoming);
    Latency.OutputBounded(t, plan);
    SameRackTotal(p.strips, t.nodes);
    assert t.intrinsic == ScopeLatencies(p);
  }

  /** What the steps of preparation established about its parts. */
  ghost predicate PartsHold<S(!new)>(p: Program<S>, parts: Parts) {
    && p.Compiled() && PartsFit(p, parts)
    && Grouped(parts.routes, parts.routeRanges) && RangesHold(p.routes, parts.routes, parts.routeRanges)
    && (forall r :: 0 <= r < |parts.routes| ==> parts.routes[r].compensation == 0)
    && (forall r :: 0 <= r < |parts.routes| ==> parts.routes[r].destination < |p.strips| && !p.strips[parts.routes[r].destination].origin.Track?)
    && (forall n :: 0 <= n < |p.strips| ==> parts.contributionRanges[n].start <= parts.contributionRanges[n].end <= |p.contributions|)
    && (forall n, k :: 0 <= n < |p.strips| && 0 <= k < |p.contributions| ==>
          (parts.contributionRanges[n].start <= k < parts.contributionRanges[n].end <==> p.contributions[k].track == n))
    && Latency.Solved(SolverTopology(p, parts.contributionRanges, parts.routes, parts.routeRanges), parts.plan)
    && Latency.BoundsCompensation(parts.plan)
    && Latency.Attained(SolverTopology(p, parts.contributionRanges, parts.routes, parts.routeRanges), parts.plan.latencies, parts.plan.maximumCompensation)
    && SourcesInside(parts.sources, |p.strips|)
    && (forall n :: 0 <= n < |p.strips| ==> StripBound(p.strips[n], parts.pre[n], parts.post[n], n, parts.plan.latencies, parts.sources))
    && (forall n :: 0 <= n < |p.strips| ==> TapsOf(parts.taps[n], parts.sources, n, |parts.sources|))
    && (forall n :: 0 <= n < |p.strips| ==> parts.slots[n] < parts.slotCount)
    && SlotsKept(parts.routes, parts.slots)
  }

  ghost predicate SlotsKept(routes: seq<Route>, slots: seq<nat>) {
    forall r, k :: 0 <= r < |routes| && 0 <= k < |slots| && routes[r].source < k <= routes[r].destination && routes[r].source < |slots| ==>
      slots[k] != slots[routes[r].source]
  }

  lemma RackAssembled<S(!new)>(s: Schedule<S>, rack: seq<PlannedProcessor<S>>, bindings: seq<seq<Binding>>, n: nat, delay: nat, latencies: seq<NodeLatency>)
    requires RackBound(rack, bindings, n, delay, latencies, s.sidechainSources)
    requires forall j :: 0 <= j < |rack| ==> Streaming(rack[j].processor)
    ensures s.RackInPlace(n, Rack(Slots(rack, delay), bindings, Buses(rack)))
  {
    hide Streaming, PrefixLatency;
    forall j, b | 0 <= j < |bindings| && 0 <= b < |bindings[j]|
      ensures s.BindingInPlace(n, bindings[j][b], Buses(rack)[j])
    {
      assert ProcessorBound(rack[j], bindings[j], n, delay + PrefixLatency(rack[..j]), latencies, s.sidechainSources);
    }
  }

  lemma AssembledNode<S(!new)>(p: Program<S>, parts: Parts, n: nat)
    requires PartsHold(p, parts) && n < |p.strips|
    ensures Assembled(p, parts).NodeInPlace(n)
  {
    hide NeedsEntry, Slots, Buses, RackBound, PreparedContribution, Latency.Attained, Latency.Solved, RangesHold;
    var s := Assembled(p, parts);
    assert StripBound(p.strips[n], parts.pre[n], parts.post[n], n, parts.plan.latencies, parts.sources);
    forall r | parts.routeRanges[n].start <= r < parts.routeRanges[n].end
      ensures r < |parts.routes| && s.routes[r].destination == n
    {
      assert parts.routes[r].destination == n;
    }
    forall k | parts.contributionRanges[n].start <= k < parts.contributionRanges[n].end
      ensures k < |p.contributions| && s.contributions[k].track == n
    {
      TrackIsKept(p.contributions[k], parts.plan.contributionCompensation[k]);
    }
    RackAssembled(s, p.strips[n].pre, parts.pre[n], n, parts.plan.latencies[n].input, parts.plan.latencies);
    RackAssembled(s, p.strips[n].post, parts.post[n], n, parts.plan.latencies[n].preFader, parts.plan.latencies);
  }

  lemma TrackIsKept<S>(c: PlannedContribution<S>, compensation: nat)
    ensures PreparedContribution(c, compensation).track == c.track
  {}

  lemma AssembledContribution<S(!new)>(p: Program<S>, parts: Parts, k: nat)
    requires PartsHold(p, parts) && k < |p.contributions|
    ensures Assembled(p, parts).ContributionInPlace(k)
  {
    hide NeedsEntry, StripBound, PrefixLatency, Latency.Attained, Latency.Solved, RangesHold;
    assert p.ContributionCompiled(p.contributions[k]);
  }

  lemma AssembledRest<S(!new)>(p: Program<S>, parts: Parts)
    requires PartsHold(p, parts)
    ensures var s := Assembled(p, parts);
            && (forall r :: 0 <= r < |s.routes| ==> s.RouteInPlace(r))
            && (forall t :: 0 <= t < |s.sidechainSources| ==> s.SnapshotTaken(t))
            && (forall r, k :: 0 <= r < |s.routes| && 0 <= k < |s.nodes| ==> s.SlotKept(r, k))
            && s.lookahead == s.nodes[s.output].latency.postFader
  {
    hide NeedsEntry, StripBound, Slots, Buses, PreparedContribution, Latency.Attained, RangesHold;
    var s := Assembled(p, parts);
    forall r, k | 0 <= r < |s.routes| && 0 <= k < |s.nodes|
      ensures s.SlotKept(r, k)
    {
      assert s.routes[r].source == parts.routes[r].source && s.routes[r].destination == parts.routes[r].destination;
    }
  }

  lemma StatelessWithoutEntry<S(!new)>(s: Schedule<S>, rack: seq<PlannedProcessor<S>>, bindings: seq<seq<Binding>>, delay: nat)
    requires !RackNeedsEntry(rack) && !BindingsNeedEntry(bindings)
    ensures s.StatelessRack(Rack(Slots(rack, delay), bindings, Buses(rack)))
  {
    hide PrefixLatency;
  }

  lemma AssembledHistoryless<S(!new)>(p: Program<S>, parts: Parts)
    requires PartsHold(p, parts) && !NeedsEntry(p, parts)
    ensures Assembled(p, parts).Historyless()
  {
    hide StripBound, Slots, Buses, RackNeedsEntry, BindingsNeedEntry, Latency.Attained, RangesHold;
    var s := Assembled(p, parts);
    forall k | 0 <= k < |s.contributions|
      ensures s.contributions[k].compensation == 0 && s.StatelessRack(s.contributions[k].rack)
    {
      ContributionStateless(s, p.contributions[k], s.contributions[k].compensation);
    }
    forall n | 0 <= n < |s.nodes|
      ensures s.StatelessRack(s.nodes[n].preRack) && s.StatelessRack(s.nodes[n].postRack)
    {
      StatelessWithoutEntry(s, p.strips[n].pre, parts.pre[n], parts.plan.latencies[n].input);
      StatelessWithoutEntry(s, p.strips[n].post, parts.post[n], parts.plan.latencies[n].preFader);
    }
  }

  /** Some source has to be entered, too. */
  ghost predicate AsksSources<S(!new)>(p: Program<S>) {
    exists k :: 0 <= k < |p.contributions| && p.contributions[k].sourceNeedsEntry
  }

  lemma RackWithEntry<S(!new)>(s: Schedule<S>, rack: seq<PlannedProcessor<S>>, bindings: seq<seq<Binding>>, delay: nat)
    requires RackNeedsEntry(rack) || BindingsNeedEntry(bindings)
    ensures !s.StatelessRack(Rack(Slots(rack, delay), bindings, Buses(rack)))
  {
    hide PrefixLatency;
    if j :| 0 <= j < |rack| && rack[j].processor.requiresStateEntry {
      assert Slots(rack, delay)[j].processor.requiresStateEntry;
    }
  }

  /** What waits longest waits in the schedule. */
  lemma WaitingIsHistory<S(!new)>(p: Program<S>, parts: Parts)
    requires PartsHold(p, parts) && parts.plan.maximumCompensation > 0
    ensures !Assembled(p, parts).Historyless()
  {
    hide StripBound, Slots, Buses, NeedsEntry, PrefixLatency, RangesHold, Grouped, Schedule.StatelessRack, PreparedNode;
    var t, s := SolverTopology(p, parts.contributionRanges, parts.routes, parts.routeRanges), Assembled(p, parts);
    var maximum := parts.plan.maximumCompensation;
    if n: nat, k: nat :| Latency.ContributionWaits(t, parts.plan.latencies, n, k, maximum) {
      assert Latency.NodeSolved(t, n, parts.plan.latencies, parts.plan.contributionCompensation, parts.plan.routeCompensation);
      assert s.contributions[k].compensation == maximum;
    } else {
      var n: nat, r: nat :| Latency.RouteWaits(t, parts.plan.latencies, n, r, maximum);
      assert Latency.NodeSolved(t, n, parts.plan.latencies, parts.plan.contributionCompensation, parts.plan.routeCompensation);
      assert s.routes[r].compensation == maximum;
    }
  }

  /** State entry is demanded only where there is a history, or a source that has one. */
  lemma EntryIsNeeded<S(!new)>(p: Program<S>, parts: Parts)
    requires PartsHold(p, parts)
    ensures Assembled(p, parts).requiresStateEntry <==> !Assembled(p, parts).Historyless() || AsksSources(p)
  {
    hide PartsHold, Slots, Buses, RackNeedsEntry, BindingsNeedEntry, PrefixLatency, Schedule.StatelessRack;
    HeldFit(p, parts);
    var s := Assembled(p, parts);
    if !NeedsEntry(p, parts) {
      AssembledHistoryless(p, parts);
    } else if parts.plan.maximumCompensation > 0 {
      WaitingIsHistory(p, parts);
    } else if k :| 0 <= k < |p.contributions| && RackNeedsEntry(p.contributions[k].processors) {
      RackWithEntry(s, p.contributions[k].processors, s.contributions[k].rack.bindings, 0);
      assert !s.StatelessRack(s.contributions[k].rack);
    } else if n :| 0 <= n < |p.strips| && (RackNeedsEntry(p.strips[n].pre) || BindingsNeedEntry(parts.pre[n])) {
      RackWithEntry(s, p.strips[n].pre, parts.pre[n], parts.plan.latencies[n].input);
      assert !s.StatelessRack(s.nodes[n].preRack);
    } else if n :| 0 <= n < |p.strips| && (RackNeedsEntry(p.strips[n].post) || BindingsNeedEntry(parts.post[n])) {
      RackWithEntry(s, p.strips[n].post, parts.post[n], parts.plan.latencies[n].preFader);
      assert !s.StatelessRack(s.nodes[n].postRack);
    }
  }

  lemma LooksAhead<S(!new)>(p: Program<S>, parts: Parts)
    requires |p.strips| > 0 && PartsFit(p, parts)
    ensures Assembled(p, parts).lookahead == parts.plan.outputLatency
  {
    hide NeedsEntry;
  }

  lemma HeldFit<S(!new)>(p: Program<S>, parts: Parts)
    requires PartsHold(p, parts)
    ensures PartsFit(p, parts) && |p.strips| > 0
  {}

  lemma ContributionStateless<S(!new)>(s: Schedule<S>, c: PlannedContribution<S>, compensation: nat)
    requires !RackNeedsEntry(c.processors)
    ensures s.StatelessRack(PreparedContribution(c, compensation).rack)
  {
    hide PrefixLatency;
  }

  /** The assembled schedule is what execution relies on. */
  lemma AssembledIsWellFormed<S(!new)>(p: Program<S>, parts: Parts)
    requires PartsHold(p, parts)
    ensures Assembled(p, parts).WellFormed()
  {
    var s := Assembled(p, parts);
    hide Schedule.NodeInPlace, Schedule.RouteInPlace, Schedule.ContributionInPlace, Schedule.SnapshotTaken, Schedule.SlotKept, Schedule.Historyless;
    hide NeedsEntry, PreparedContribution, PreparedNode, Latency.Attained, Latency.Solved, RangesHold, Grouped, StripBound, SlotsKept;
    AssembledRest(p, parts);
    forall n | 0 <= n < |s.nodes|
      ensures s.NodeInPlace(n)
    {
      AssembledNode(p, parts, n);
    }
    forall k | 0 <= k < |s.contributions|
      ensures s.ContributionInPlace(k)
    {
      AssembledContribution(p, parts, k);
    }
    if !s.requiresStateEntry {
      AssembledHistoryless(p, parts);
    }
  }

  // ------------------------------------------------------------------ the schedule carries the solved plan

  /** The equations of the solver do not look at compensation. */
  lemma SolvedIgnoresCompensation(t: Latency.Topology, u: Latency.Topology, plan: Latency.Plan)
    requires Latency.Solved(t, plan)
    requires u.nodes == t.nodes && u.intrinsic == t.intrinsic && u.output == t.output && |u.routes| == |t.routes|
    requires forall r :: 0 <= r < |t.routes| ==>
               u.routes[r].source == t.routes[r].source && u.routes[r].destination == t.routes[r].destination && u.routes[r].port == t.routes[r].port
    ensures Latency.Solved(u, plan)
  {
    assert Latency.Arrivals(u, plan.latencies) == Latency.Arrivals(t, plan.latencies);
    forall n | 0 <= n < |u.nodes|
      ensures Latency.NodeSolved(u, n, plan.latencies, plan.contributionCompensation, plan.routeCompensation)
    {
      assert Latency.NodeSolved(t, n, plan.latencies, plan.contributionCompensation, plan.routeCompensation);
      assert forall r :: 0 <= r < |t.routes| ==> Latency.Arrival(u, plan.latencies, r) == Latency.Arrival(t, plan.latencies, r);
    }
  }

  lemma SameTopology<S(!new)>(p: Program<S>, parts: Parts)
    requires PartsHold(p, parts)
    ensures var t := SolverTopology(p, parts.contributionRanges, parts.routes, parts.routeRanges);
            var u := TopologyOf(Assembled(p, parts));
            u.nodes == t.nodes && u.intrinsic == t.intrinsic && u.output == t.output
  {
    hide NeedsEntry, StripBound, PrefixLatency, SlotLatencies, Slots, Buses;
    var t, u := SolverTopology(p, parts.contributionRanges, parts.routes, parts.routeRanges), TopologyOf(Assembled(p, parts));
    forall n | 0 <= n < |p.strips|
      ensures u.nodes[n] == t.nodes[n]
    {
      AllSlotsKeepLatency(p.strips[n].pre, parts.plan.latencies[n].input);
      AllSlotsKeepLatency(p.strips[n].post, parts.plan.latencies[n].preFader);
    }
  }

  lemma AssembledIsPlanned<S(!new)>(p: Program<S>, parts: Parts)
    requires PartsHold(p, parts)
    ensures Planned(Assembled(p, parts), parts.plan)
  {
    hide NeedsEntry, StripBound, PrefixLatency, SlotLatencies, Slots, Buses;
    var s := Assembled(p, parts);
    SameTopology(p, parts);
    SolvedIgnoresCompensation(SolverTopology(p, parts.contributionRanges, parts.routes, parts.routeRanges), TopologyOf(s), parts.plan);
    forall k | 0 <= k < |s.contributions|
      ensures RackTimed(s.contributions[k])
    {
      ContributionIsTimed(p.contributions[k], parts.plan.contributionCompensation[k]);
    }
  }

  lemma ContributionIsTimed<S(!new)>(c: PlannedContribution<S>, compensation: nat)
    ensures RackTimed(PreparedContribution(c, compensation))
  {
    hide PrefixLatency, SlotLatencies;
    AllSlotsKeepLatency(c.processors, 0);
    forall j | 0 <= j < |c.processors|
      ensures Slots(c.processors, 0)[j].inputDelay == SlotLatencies(Slots(c.processors, 0)[..j])
    {
      SlotsKeepLatency(c.processors, 0, j);
    }
  }

  lemma AssembledIsExtended<S(!new)>(p: Program<S>, parts: Parts)
    requires |p.strips| > 0 && PartsFit(p, parts)
    ensures Extended(Assembled(p, parts))
  {
    hide NeedsEntry, PreparedContribution, PreparedNode, IsExtended;
    var s := Assembled(p, parts);
    forall k | 0 <= k < |s.contributions|
      ensures IsExtended(s.contributions[k])
    {
      assert s.contributions[k] == PreparedContribution(p.contributions[k], parts.plan.contributionCompensation[k]);
      ContributionExtends(p.contributions[k], parts.plan.contributionCompensation[k]);
    }
  }

  lemma ContributionExtends<S>(c: PlannedContribution<S>, compensation: nat)
    ensures IsExtended(PreparedContribution(c, compensation))
  {
    hide PrefixLatency, Slots, Buses;
    assert ExtendsBy(PreparedContribution(c, compensation), RackTail(c.tails));
  }

  lemma AssembledIsTimed<S(!new)>(p: Program<S>, parts: Parts)
    requires PartsHold(p, parts) && Assembled(p, parts).WellFormed()
    ensures SidechainsTimed(Assembled(p, parts))
  {
    hide NeedsEntry, RackBound, PreparedContribution, Schedule.WellFormed, PrefixLatency, SlotLatencies, Latency.Attained, RangesHold;
    var s := Assembled(p, parts);
    forall n, post, j | 0 <= n < |s.nodes| && 0 <= j < |s.nodes[n].RackAt(post).slots|
      ensures SidechainTimed(s, n, post, j)
    {
      assert StripBound(p.strips[n], parts.pre[n], parts.post[n], n, parts.plan.latencies, parts.sources);
      SlotIsTimed(s, p.strips[n].RackAt(post), n, post, j, parts.plan.latencies);
    }
  }

  lemma SlotIsTimed<S(!new)>(s: Schedule<S>, rack: seq<PlannedProcessor<S>>, n: nat, post: bool, j: nat, latencies: seq<NodeLatency>)
    requires s.WellFormed() && n < |s.nodes| == |latencies| && j < |s.nodes[n].RackAt(post).slots|
    requires forall m :: 0 <= m < |s.nodes| ==> s.nodes[m].latency == latencies[m]
    requires var delay := if post then s.nodes[n].latency.preFader else s.nodes[n].latency.input;
             s.nodes[n].RackAt(post).slots == Slots(rack, delay) && s.nodes[n].RackAt(post).buses == Buses(rack)
             && RackBound(rack, s.nodes[n].RackAt(post).bindings, n, delay, latencies, s.sidechainSources)
    ensures SidechainTimed(s, n, post, j)
  {
    hide PrefixLatency, SlotLatencies, Schedule.RouteInPlace, Schedule.ContributionInPlace, Schedule.SlotKept, Schedule.SnapshotTaken, Schedule.Historyless;
    var delay := if post then s.nodes[n].latency.preFader else s.nodes[n].latency.input;
    assert s.NodeInPlace(n);
    SlotsKeepLatency(rack, delay, j);
    assert ProcessorBound(rack[j], s.nodes[n].RackAt(post).bindings[j], n, delay + PrefixLatency(rack[..j]), latencies, s.sidechainSources);
  }

  // ------------------------------------------------------------------ preparation

  datatype PrepareError = OrderViolated | NoLatencyPlan | SidechainNotTimely

  ghost predicate SameSlots<S>(slots: seq<Slot<S>>, rack: seq<PlannedProcessor<S>>) {
    |slots| == |rack| && forall j :: 0 <= j < |rack| ==> slots[j].processor == rack[j].processor
  }

  /** The processors of the rack in their order, and their sidechains one by one. */
  ghost predicate RackRealized<S>(prepared: Rack<S>, rack: seq<PlannedProcessor<S>>, sources: seq<SidechainSource>) {
    && SameSlots(prepared.slots, rack) && |prepared.bindings| == |rack| && prepared.buses == Buses(rack)
    && forall j :: 0 <= j < |rack| ==> SidechainsRealized(prepared.bindings[j], rack[j].sidechains, sources)
  }

  ghost predicate SidechainsRealized(bindings: seq<Binding>, routes: seq<SidechainRoute>, sources: seq<SidechainSource>) {
    |bindings| == |routes| && forall b :: 0 <= b < |bindings| ==> Taps(bindings[b], routes[b], sources)
  }

  /** The same Routes, whatever compensation they carry. */
  ghost predicate RoutesRealized(routes: seq<Route>, planned: seq<PlannedRoute>) {
    |routes| == |planned| && forall r :: 0 <= r < |routes| ==> routes[r].(compensation := 0) == Lowered(planned[r])
  }

  ghost predicate NodeRealized<S(!new)>(s: Schedule<S>, n: nat, p: Program<S>)
    requires n < |s.nodes| == |p.strips|
  {
    var node, strip := s.nodes[n], p.strips[n];
    && node.origin == strip.origin && node.muted == strip.muted && node.trim == strip.trim && node.fader == strip.fader
    && RackRealized(node.preRack, strip.pre, s.sidechainSources) && RackRealized(node.postRack, strip.post, s.sidechainSources)
    && node.incomingStart <= node.incomingEnd <= |s.routes|
    && RoutesRealized(s.routes[node.incomingStart..node.incomingEnd], RoutesInto(p.routes, n))
  }

  ghost predicate ContributionRealized<S>(c: Contribution<S>, planned: PlannedContribution<S>) {
    && c.track == planned.track && c.start == planned.start && c.end == planned.end && c.timeMap == planned.timeMap
    && c.scopeGain == planned.scopeGain && c.editGain == planned.editGain
    && SameSlots(c.rack.slots, planned.processors) && c.rack.buses == Buses(planned.processors)
    && c.sourceLatency == 0 && c.rackLatency == SlotLatencies(c.rack.slots) == PrefixLatency(planned.processors)
    && c.executionEnd == ExecutionEnd(c.end, c.rackLatency, RackTail(planned.tails))
  }

  /** Everything the program says: its strips with their racks, sidechains and incoming Routes, and its contributions. */
  ghost predicate Realizes<S(!new)>(s: Schedule<S>, p: Program<S>) {
    && |s.nodes| == |p.strips| && |s.contributions| == |p.contributions|
    && s.channels == p.channels && s.rate == p.rate && s.maxBlock == p.maxBlock && s.output == |p.strips| - 1
    && (forall n :: 0 <= n < |p.strips| ==> NodeRealized(s, n, p))
    && (forall k :: 0 <= k < |p.contributions| ==> ContributionRealized(s.contributions[k], p.contributions[k]))
  }

  lemma RackIsRealized<S>(rack: seq<PlannedProcessor<S>>, bindings: seq<seq<Binding>>, n: nat, delay: nat, latencies: seq<NodeLatency>, sources: seq<SidechainSource>)
    requires RackBound(rack, bindings, n, delay, latencies, sources)
    ensures RackRealized(Rack(Slots(rack, delay), bindings, Buses(rack)), rack, sources)
  {
    hide PrefixLatency;
    forall j | 0 <= j < |rack|
      ensures SidechainsRealized(bindings[j], rack[j].sidechains, sources)
    {
      assert ProcessorBound(rack[j], bindings[j], n, delay + PrefixLatency(rack[..j]), latencies, sources);
    }
  }

  lemma AssembledRealizes<S(!new)>(p: Program<S>, parts: Parts)
    requires PartsHold(p, parts)
    ensures Realizes(Assembled(p, parts), p)
  {
    hide NeedsEntry, RackBound, RackRealized, PreparedContribution, RoutesInto, PrefixLatency, Slots, Buses, Latency.Attained, Latency.Solved;
    var s := Assembled(p, parts);
    forall n | 0 <= n < |p.strips|
      ensures NodeRealized(s, n, p)
    {
      assert StripBound(p.strips[n], parts.pre[n], parts.post[n], n, parts.plan.latencies, parts.sources);
      RackIsRealized(p.strips[n].pre, parts.pre[n], n, parts.plan.latencies[n].input, parts.plan.latencies, parts.sources);
      RackIsRealized(p.strips[n].post, parts.post[n], n, parts.plan.latencies[n].preFader, parts.plan.latencies, parts.sources);
      RoutesAreRealized(p.routes, parts.routes, parts.routeRanges, s.routes, n);
    }
    forall k | 0 <= k < |p.contributions|
      ensures ContributionRealized(s.contributions[k], p.contributions[k])
    {
      ContributionIsRealized(p.contributions[k], parts.plan.contributionCompensation[k]);
    }
  }

  lemma ContributionIsRealized<S>(c: PlannedContribution<S>, compensation: nat)
    ensures ContributionRealized(PreparedContribution(c, compensation), c)
  {
    AllSlotsKeepLatency(c.processors, 0);
  }

  /** Compensation does not change which Routes lead into a node. */
  lemma RoutesAreRealized(planned: seq<PlannedRoute>, routes: seq<Route>, ranges: seq<Range>, compensated: seq<Route>, n: nat)
    requires RangesHold(planned, routes, ranges) && n < |ranges| && |compensated| == |routes|
    requires forall r :: 0 <= r < |routes| ==> compensated[r] == routes[r].(compensation := compensated[r].compensation)
    requires forall r :: 0 <= r < |routes| ==> routes[r].compensation == 0
    ensures ranges[n].start <= ranges[n].end <= |compensated|
    ensures RoutesRealized(compensated[ranges[n].start..ranges[n].end], RoutesInto(planned, n))
  {
    hide RoutesInto;
    var range, into := ranges[n], RoutesInto(planned, n);
    assert routes[range.start..range.end] == AllLowered(into);
    forall r | 0 <= r < |into|
      ensures compensated[range.start + r].(compensation := 0) == Lowered(into[r])
    {
      assert routes[range.start + r] == routes[range.start..range.end][r] == AllLowered(into)[r];
    }
  }

  lemma IsArranged<S(!new)>(p: Program<S>, contributions: seq<Range>, routes: seq<Route>, incoming: seq<Range>)
    requires p.Compiled() && LeadsForward(p) && |contributions| == |incoming| == |p.strips|
    requires Grouped(routes, incoming) && RangesHold(p.routes, routes, incoming)
    requires forall n :: 0 <= n < |p.strips| ==> contributions[n].start <= contributions[n].end <= |p.contributions|
    requires forall n, k :: 0 <= n < |p.strips| && 0 <= k < |p.contributions| ==>
               (contributions[n].start <= k < contributions[n].end <==> p.contributions[k].track == n)
    ensures Arranged(p, contributions, routes, incoming)
  {
    hide Grouped, RangesHold, Program.Compiled;
  }

  /** Prepare the schedule of a compiled program: group Routes and contributions, solve latencies, bind sidechains and
      assign scratch slots. What comes out is well formed and carries the solved plan, the tails and the signal delays. */
  method PrepareSchedule<S(!new)>(p: Program<S>) returns (error: Option<PrepareError>, schedule: Option<Schedule<S>>, ghost plan: Latency.Plan)
    requires p.Compiled()
    ensures error.None? == schedule.Some?
    ensures error == Obstacle(p)
    ensures schedule.Some? ==>
              && schedule.value.WellFormed() && Planned(schedule.value, plan) && Extended(schedule.value)
              && SidechainsTimed(schedule.value)
    ensures schedule.Some? ==> Realizes(schedule.value, p)
    ensures schedule.Some? ==> schedule.value.lookahead <= TotalLatency(p)
    ensures schedule.Some? ==> plan.latencies == ProgramLatencies(p)
    ensures error == Some(NoLatencyPlan) ==> TotalLatency(p) > USIZE_MAX
    ensures schedule.Some? ==> (schedule.value.requiresStateEntry <==> !schedule.value.Historyless() || AsksSources(p))
  {
    hide Arranged, StripLatency, ProgramLatencies, LatencyFits, PartsHold, Schedule.WellFormed, Planned, Extended, SidechainsTimed, NeedsEntry, StripTimely, StripBound, Realizes, RangesHold, TotalLatency, Latency.Refused, Latency.BoundsCompensation, Latency.Attained, Schedule.Historyless, AsksSources, Assembled;
    schedule := None;
    plan := Latency.Plan([], [], [], 0, 0);
    var contributionRanges := ContributionRanges(p);
    var ok, routes, routeRanges := LowerRoutes(p);
    if !ok {
      error := Some(OrderViolated);
      return;
    }
    IsArranged(p, contributionRanges, routes, routeRanges);
    var t := SolverTopology(p, contributionRanges, routes, routeRanges);
    var solved := Latency.SolvePreparedLatency(t);
    if solved.Err? {
      RefusedForLatency(p, contributionRanges, routes, routeRanges, solved.error);
      error := Some(NoLatencyPlan);
      return;
    }
    plan := solved.plan;
    SolvedFits(p, contributionRanges, routes, routeRanges, plan);
    var bound, pre, post, sources := BindStrips(p, solved.plan.latencies);
    if !bound {
      error := Some(SidechainNotTimely);
      return;
    }
    var taps := CollectTaps(sources, |p.strips|);
    var slots, slotCount := AssignSlots(routes, |p.strips|);
    var parts := Parts(contributionRanges, routes, routeRanges, solved.plan, pre, post, sources, taps, slots, slotCount);
    PartsAreHeld(p, parts);
    AssembledMeets(p, parts);
    LookaheadBounded(p, contributionRanges, routes, routeRanges, plan);
    schedule := Some(Assembled(p, parts));
    error := None;
  }

  lemma AssembledMeets<S(!new)>(p: Program<S>, parts: Parts)
    requires PartsHold(p, parts)
    ensures PartsFit(p, parts) && |p.strips| > 0
    ensures var s := Assembled(p, parts);
            && s.WellFormed() && Planned(s, parts.plan) && Extended(s) && SidechainsTimed(s) && Realizes(s, p)
            && (s.requiresStateEntry <==> !s.Historyless() || AsksSources(p)) && s.lookahead == parts.plan.outputLatency
  {
    hide PartsHold, Schedule.WellFormed, Planned, Extended, SidechainsTimed, Realizes, Schedule.Historyless, AsksSources, Assembled;
    HeldFit(p, parts);
    LooksAhead(p, parts);
    AssembledIsWellFormed(p, parts);
    AssembledIsPlanned(p, parts);
    AssembledIsExtended(p, parts);
    AssembledIsTimed(p, parts);
    AssembledRealizes(p, parts);
    EntryIsNeeded(p, parts);
  }

  /** Scratch slots by liveness. */
  method AssignSlots(routes: seq<Route>, nodes: nat) returns (slots: seq<nat>, count: nat)
    requires forall r :: 0 <= r < |routes| ==> routes[r].source < routes[r].destination < nodes
    ensures |slots| == nodes && SlotsKept(routes, slots) && forall n :: 0 <= n < nodes ==> slots[n] < count
  {
    var last := Scratch.LastConsumers(routes, nodes);
    slots, count := Scratch.AssignLivenessScratch(last);
    forall r, k | 0 <= r < |routes| && 0 <= k < |slots| && routes[r].source < k <= routes[r].destination
      ensures slots[k] != slots[routes[r].source]
    {
      Scratch.SourcesKeepTheirSlots(routes, last, slots, r, k);
    }
  }

  lemma PartsAreHeld<S(!new)>(p: Program<S>, parts: Parts)
    requires p.Compiled() && PartsFit(p, parts)
    requires Grouped(parts.routes, parts.routeRanges) && RangesHold(p.routes, parts.routes, parts.routeRanges)
    requires forall r :: 0 <= r < |parts.routes| ==> parts.routes[r].compensation == 0
    requires forall r :: 0 <= r < |parts.routes| ==> parts.routes[r].destination < |p.strips| && !p.strips[parts.routes[r].destination].origin.Track?
    requires forall n :: 0 <= n < |p.strips| ==> parts.contributionRanges[n].start <= parts.contributionRanges[n].end <= |p.contributions|
    requires forall n, k :: 0 <= n < |p.strips| && 0 <= k < |p.contributions| ==>
               (parts.contributionRanges[n].start <= k < parts.contributionRanges[n].end <==> p.contributions[k].track == n)
    requires Latency.Solved(SolverTopology(p, parts.contributionRanges, parts.routes, parts.routeRanges), parts.plan)
    requires Latency.BoundsCompensation(parts.plan) && SourcesInside(parts.sources, |p.strips|)
    requires Latency.Attained(SolverTopology(p, parts.contributionRanges, parts.routes, parts.routeRanges), parts.plan.latencies, parts.plan.maximumCompensation)
    requires forall n :: 0 <= n < |p.strips| ==> StripBound(p.strips[n], parts.pre[n], parts.post[n], n, parts.plan.latencies, parts.sources)
    requires forall n :: 0 <= n < |p.strips| ==> TapsOf(parts.taps[n], parts.sources, n, |parts.sources|)
    requires (forall n :: 0 <= n < |p.strips| ==> parts.slots[n] < parts.slotCount) && SlotsKept(parts.routes, parts.slots)
    ensures PartsHold(p, parts)
  {
    hide Latency.Solved, Latency.Attained, StripBound, NeedsEntry, PrefixLatency, RangesHold, Grouped;
  }
}
