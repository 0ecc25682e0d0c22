/** Delay compensation is transparent: what the compensated graph carries late is
    exactly what a mixer without any latency would have carried on time. */
module Transparency {
  import opened Frames
  import opened Graph
  import opened Processors
  import opened Schedule
  import opened Alignment
  import opened Compensation
  import Latency

  // ------------------------------------------------------------------ what preparation established

  ghost function Intrinsic<S>(c: Contribution<S>): nat { c.sourceLatency + c.rackLatency }

  /** The topology the latency solver sees. */
  ghost function TopologyOf<S(!new)>(s: Schedule<S>): Latency.Topology {
    Latency.Topology(
      seq(|s.nodes|, n requires 0 <= n < |s.nodes| =>
        Latency.LatencyNode(s.nodes[n].origin,
          s.nodes[n].contributionStart, s.nodes[n].contributionEnd,
          s.nodes[n].incomingStart, s.nodes[n].incomingEnd,
          SlotLatencies(s.nodes[n].preRack.slots), SlotLatencies(s.nodes[n].postRack.slots))),
      s.routes,
      seq(|s.contributions|, k requires 0 <= k < |s.contributions| => Intrinsic(s.contributions[k])),
      s.output)
  }

  /** Compensation and node latencies were copied out of the solved plan. */
  ghost predicate Planned<S(!new)>(s: Schedule<S>, plan: Latency.Plan) {
    && Latency.Solved(TopologyOf(s), plan)
    && (forall n :: 0 <= n < |s.nodes| ==> s.nodes[n].latency == plan.latencies[n])
    && (forall r :: 0 <= r < |s.routes| ==> s.routes[r].compensation == plan.routeCompensation[r])
    && (forall k :: 0 <= k < |s.contributions| ==> s.contributions[k].compensation == plan.contributionCompensation[k])
    && (forall k :: 0 <= k < |s.contributions| ==> RackTimed(s.contributions[k]))
  }

  ghost predicate RackTimed<S>(c: Contribution<S>) {
    c.rackLatency == SlotLatencies(c.rack.slots) && DelaysAccumulate(c.rack.slots, 0)
  }

  datatype Tail = NoTail | Finite(frames: nat) | Infinite

  /** Tails of consecutive processors add up; one infinite tail makes the rack infinite. */
  function AccumulateTail(accumulated: Tail, next: Tail): Tail {
    match (accumulated, next)
    case (Infinite, _) => Infinite
    case (_, Infinite) => Infinite
    case (NoTail, tail) => tail
    case (tail, NoTail) => tail
    case (Finite(left), Finite(right)) => Finite(left + right)
  }

  /** Exclusive end of causal execution of a contribution, None for an infinite tail. */
  function ExecutionEnd(end: int, intrinsic: nat, tail: Tail): Option<int> {
    match tail
    case NoTail => Some(end + intrinsic)
    case Finite(frames) => Some(end + intrinsic + frames)
    case Infinite => None
  }

  /** The extent of every contribution was computed from some rack tail. Sources are
      media or public child outputs, which preparation declares free of latency. */
  ghost predicate Extended<S(!new)>(s: Schedule<S>) {
    forall k :: 0 <= k < |s.contributions| ==> IsExtended(s.contributions[k])
  }

  ghost predicate IsExtended<S>(c: Contribution<S>) {
    c.sourceLatency == 0 && exists tail: Tail :: ExtendsBy(c, tail)
  }

  /** Execution goes on behind the placement for the latency and the tail of the contribution. */
  ghost predicate ExtendsBy<S>(c: Contribution<S>, tail: Tail) {
    c.executionEnd == ExecutionEnd(c.end, Intrinsic(c), tail)
  }

  /** Sequence samples by which the input of processor `j` of a rack is late. */
  ghost function SignalDelay<S(!new)>(s: Schedule<S>, n: nat, post: bool, j: nat): nat
    requires n < |s.nodes| && j < |s.nodes[n].RackAt(post).slots|
  {
    (if post then s.nodes[n].latency.preFader else s.nodes[n].latency.input) + SlotLatencies(s.nodes[n].RackAt(post).slots[..j])
  }

  /** Preparation gave every processor its signal delay and every sidechain binding the rest that its source lacks to it. */
  ghost predicate SidechainsTimed<S(!new)>(s: Schedule<S>)
    requires s.WellFormed()
  {
    forall n, post, j :: 0 <= n < |s.nodes| && 0 <= j < |s.nodes[n].RackAt(post).slots| ==> SidechainTimed(s, n, post, j)
  }

  ghost predicate SidechainTimed<S(!new)>(s: Schedule<S>, n: nat, post: bool, j: nat)
    requires s.WellFormed() && n < |s.nodes| && j < |s.nodes[n].RackAt(post).slots|
  {
    var rack := s.nodes[n].RackAt(post);
    assert s.NodeInPlace(n);
    && rack.slots[j].inputDelay == SignalDelay(s, n, post, j)
    && forall b :: 0 <= b < |rack.bindings[j]| ==>
         assert s.BindingInPlace(n, rack.bindings[j][b], rack.buses[j]);
         var source := s.sidechainSources[rack.bindings[j][b].sourceBuffer];
         rack.bindings[j][b].compensation + s.nodes[source.node].latency.At(source.port) == rack.slots[j].inputDelay
  }

  lemma NodeEquations<S(!new)>(s: Schedule<S>, plan: Latency.Plan, n: nat)
    requires s.WellFormed() && Planned(s, plan) && n < |s.nodes|
    ensures s.nodes[n].latency.preFader == s.nodes[n].latency.input + SlotLatencies(s.nodes[n].preRack.slots)
    ensures s.nodes[n].latency.postFader == s.nodes[n].latency.preFader + SlotLatencies(s.nodes[n].postRack.slots)
  {
    assert Latency.NodeSolved(TopologyOf(s), n, plan.latencies, plan.contributionCompensation, plan.routeCompensation);
  }

  lemma ContributionEquation<S(!new)>(s: Schedule<S>, plan: Latency.Plan, k: nat)
    requires s.WellFormed() && Planned(s, plan) && k < |s.contributions|
    ensures s.ContributionInPlace(k)
    ensures s.contributions[k].compensation + Intrinsic(s.contributions[k]) == s.nodes[s.contributions[k].track].latency.input
  {
    var t := TopologyOf(s);
    assert s.ContributionInPlace(k);
    var n := s.contributions[k].track;
    assert Latency.NodeSolved(t, n, plan.latencies, plan.contributionCompensation, plan.routeCompensation);
    assert t.intrinsic[k] == Intrinsic(s.contributions[k]) <= plan.latencies[n].input;
  }

  lemma RouteEquation<S(!new)>(s: Schedule<S>, plan: Latency.Plan, r: nat)
    requires s.WellFormed() && Planned(s, plan) && r < |s.routes|
    ensures s.RouteInPlace(r)
    ensures s.routes[r].compensation + s.nodes[s.routes[r].source].latency.At(s.routes[r].port)
            == s.nodes[s.routes[r].destination].latency.input
  {
    var t := TopologyOf(s);
    assert s.RouteInPlace(r);
    var n := s.routes[r].destination;
    assert Latency.NodeSolved(t, n, plan.latencies, plan.contributionCompensation, plan.routeCompensation);
    assert Latency.Arrivals(t, plan.latencies)[r] == Latency.Arrival(t, plan.latencies, r) <= plan.latencies[n].input;
  }

  /** Every processor of the plan has a latency that is a pure shift. */
  ghost predicate AllCompensable<S(!new)>(s: Schedule<S>) {
    && (forall n :: 0 <= n < |s.nodes| ==>
          CompensableRack(s.nodes[n].preRack.slots, s.channels, s.nodes[n].preRack.buses)
          && CompensableRack(s.nodes[n].postRack.slots, s.channels, s.nodes[n].postRack.buses))
    && (forall k :: 0 <= k < |s.contributions| ==> CompensableRack(s.contributions[k].rack.slots, s.channels, s.contributions[k].rack.buses))
  }

  ghost predicate Prepared<S(!new)>(s: Schedule<S>, plan: Latency.Plan) {
    s.WellFormed() && Planned(s, plan) && Extended(s) && SidechainsTimed(s) && AllCompensable(s)
  }

  // ------------------------------------------------------------------ the mixer without delays

  /** A contribution at Sequence sample `t` of an epoch: its scope rack begins with the epoch or the placement and
      runs behind the placement for as long as its tail. */
  ghost function IdealContribution<S(!new)>(w: World<S>, k: nat, t: int): Frame
    requires w.schedule.WellFormed() && k < |w.schedule.contributions|
  {
    var c := w.schedule.contributions[k];
    assert w.schedule.ContributionInPlace(k);
    var start := RackStart(w, c);
    if t < start || !Executes(c, t + Intrinsic(c)) then Silence(w.schedule.channels) else
    var length := t - start + 1 + SlotLatencies(c.rack.slots);
    var out := Advanced(c.rack.slots, |c.rack.slots|, start, ScopeInput(w, k, length), SilentAux(c.rack, w.schedule.channels, length));
    if out.None? then Silence(w.schedule.channels) else Shape(Last(out.value, w.schedule.channels), c.editGain.At(t))
  }

  ghost function IdealContributions<S(!new)>(w: World<S>, n: nat, hi: nat, t: int): Frame
    requires w.schedule.WellFormed() && n < |w.schedule.nodes|
    requires w.schedule.nodes[n].contributionStart <= hi <= w.schedule.nodes[n].contributionEnd
    decreases hi
  {
    assert w.schedule.NodeInPlace(n);
    if hi == w.schedule.nodes[n].contributionStart then Silence(w.schedule.channels)
    else Add(IdealContributions(w, n, hi - 1, t), IdealContribution(w, hi - 1, t))
  }

  ghost function IdealRoutes<S(!new)>(w: World<S>, n: nat, hi: nat, t: int): Frame
    requires w.schedule.WellFormed() && n < |w.schedule.nodes| && !w.schedule.nodes[n].origin.Track?
    requires w.schedule.nodes[n].incomingStart <= hi <= w.schedule.nodes[n].incomingEnd
    decreases n, 0, hi
  {
    assert w.schedule.NodeInPlace(n);
    if hi == w.schedule.nodes[n].incomingStart then Silence(w.schedule.channels) else
    var route := w.schedule.routes[hi - 1];
    assert w.schedule.RouteInPlace(hi - 1);
    Add(IdealRoutes(w, n, hi - 1, t), Scale(IdealPort(w, route.source, route.port, t), route.gain.At(t)))
  }

  ghost function IdealInput<S(!new)>(w: World<S>, n: nat, t: int): Frame
    requires w.schedule.WellFormed() && n < |w.schedule.nodes|
    decreases n, 1
  {
    assert w.schedule.NodeInPlace(n);
    if w.schedule.nodes[n].origin.Track? then IdealContributions(w, n, w.schedule.nodes[n].contributionEnd, t)
    else IdealRoutes(w, n, w.schedule.nodes[n].incomingEnd, t)
  }

  /** The first `hi` sidechains of one processor, summed into auxiliary bus `bus`. */
  ghost function IdealBindings<S(!new)>(w: World<S>, n: nat, post: bool, j: nat, hi: nat, bus: nat, t: int): Frame
    requires w.schedule.WellFormed() && n < |w.schedule.nodes|
    requires j < |w.schedule.nodes[n].RackAt(post).slots| == |w.schedule.nodes[n].RackAt(post).bindings|
    requires hi <= |w.schedule.nodes[n].RackAt(post).bindings[j]|
    decreases n, 0, hi
  {
    assert w.schedule.NodeInPlace(n);
    var rack := w.schedule.nodes[n].RackAt(post);
    if hi == 0 then Silence(w.schedule.channels) else
    var binding := rack.bindings[j][hi - 1];
    assert w.schedule.BindingInPlace(n, binding, rack.buses[j]);
    var before := IdealBindings(w, n, post, j, hi - 1, bus, t);
    if binding.bus != bus then before else
    var source := w.schedule.sidechainSources[binding.sourceBuffer];
    Add(before, Scale(IdealPort(w, source.node, source.port, t), binding.gain.At(t)))
  }

  ghost function IdealAux<S(!new)>(w: World<S>, n: nat, post: bool, j: nat, t: int): AuxFrame
    requires w.schedule.WellFormed() && n < |w.schedule.nodes|
    requires j < |w.schedule.nodes[n].RackAt(post).slots|
    decreases n, 1
  {
    assert w.schedule.NodeInPlace(n);
    var rack := w.schedule.nodes[n].RackAt(post);
    seq(rack.buses[j], bus requires 0 <= bus < rack.buses[j] => IdealBindings(w, n, post, j, |rack.bindings[j]|, bus, t))
  }

  ghost function IdealAuxes<S(!new)>(w: World<S>, n: nat, post: bool, length: nat): (aux: seq<seq<AuxFrame>>)
    requires w.schedule.WellFormed() && n < |w.schedule.nodes|
    ensures |aux| == |w.schedule.nodes[n].RackAt(post).slots| && AuxLengths(aux, length)
    decreases n, 2
  {
    var slots := |w.schedule.nodes[n].RackAt(post).slots|;
    seq(slots, j requires 0 <= j < slots => seq(length, i requires 0 <= i < length => IdealAux(w, n, post, j, w.entry + i)))
  }

  ghost function IdealRackInput<S(!new)>(w: World<S>, n: nat, post: bool, t: int): Frame
    requires w.schedule.WellFormed() && n < |w.schedule.nodes|
    decreases n, if post then 6 else 2
  {
    if post then Scale(IdealRackOutput(w, n, false, t), w.schedule.nodes[n].fader.At(t))
    else Scale(IdealInput(w, n, t), w.schedule.nodes[n].trim)
  }

  ghost function IdealMain<S(!new)>(w: World<S>, n: nat, post: bool, length: nat): (main: seq<Frame>)
    requires w.schedule.WellFormed() && n < |w.schedule.nodes|
    ensures |main| == length
    decreases n, if post then 7 else 3
  {
    seq(length, i requires 0 <= i < length => IdealRackInput(w, n, post, w.entry + i))
  }

  /** What a rack makes of its input at `t`: its processors look ahead by their latencies and delay nothing. */
  ghost function IdealRackOutput<S(!new)>(w: World<S>, n: nat, post: bool, t: int): Frame
    requires w.schedule.WellFormed() && n < |w.schedule.nodes|
    decreases n, if post then 8 else 4
  {
    if t < w.entry then Silence(w.schedule.channels) else
    var slots := w.schedule.nodes[n].RackAt(post).slots;
    var length := t - w.entry + 1 + SlotLatencies(slots);
    var out := Advanced(slots, |slots|, w.entry, IdealMain(w, n, post, length), IdealAuxes(w, n, post, length));
    if out.None? then Silence(w.schedule.channels) else Last(out.value, w.schedule.channels)
  }

  /** What one port carries at `t`: every gain and every sidechain is read at the Sequence sample the signal belongs to. */
  ghost function IdealPort<S(!new)>(w: World<S>, n: nat, port: Port, t: int): Frame
    requires w.schedule.WellFormed() && n < |w.schedule.nodes|
    decreases n, 9
  {
    match port
    case PreFader => IdealRackOutput(w, n, false, t)
    case PostFaderPreMute => IdealRackOutput(w, n, true, t)
    case PostMute => if w.schedule.nodes[n].muted then Silence(w.schedule.channels) else IdealRackOutput(w, n, true, t)
  }

  // ------------------------------------------------------------------ before the epoch

  lemma IdealContributionQuiet<S(!new)>(w: World<S>, k: nat, t: int)
    requires w.schedule.WellFormed() && k < |w.schedule.contributions| && t < w.entry
    ensures IdealContribution(w, k, t) == Silence(w.schedule.channels)
  {
    hide Advanced, ScopeInput, SilentAux;
  }

  lemma {:induction false} IdealContributionsQuiet<S(!new)>(w: World<S>, n: nat, hi: nat, t: int)
    requires w.schedule.WellFormed() && n < |w.schedule.nodes| && t < w.entry
    requires w.schedule.nodes[n].contributionStart <= hi <= w.schedule.nodes[n].contributionEnd
    ensures IdealContributions(w, n, hi, t) == Silence(w.schedule.channels)
    decreases hi
  {
    hide IdealContribution;
    assert w.schedule.NodeInPlace(n);
    if hi > w.schedule.nodes[n].contributionStart {
      IdealContributionsQuiet(w, n, hi - 1, t);
      IdealContributionQuiet(w, hi - 1, t);
      AddSilence(Silence(w.schedule.channels), w.schedule.channels);
    }
  }

  lemma IdealPortQuiet<S(!new)>(w: World<S>, n: nat, port: Port, t: int)
    requires w.schedule.WellFormed() && n < |w.schedule.nodes| && t < w.entry
    ensures IdealPort(w, n, port, t) == Silence(w.schedule.channels)
  {
    hide IdealMain, IdealAuxes, Advanced;
  }

  lemma ScaledQuiet<S(!new)>(w: World<S>, n: nat, port: Port, t: int, gain: real)
    requires w.schedule.WellFormed() && n < |w.schedule.nodes| && t < w.entry
    ensures Add(Silence(w.schedule.channels), Scale(IdealPort(w, n, port, t), gain)) == Silence(w.schedule.channels)
  {
    hide IdealPort;
    IdealPortQuiet(w, n, port, t);
    ScaleSilence(w.schedule.channels, gain);
    AddSilence(Silence(w.schedule.channels), w.schedule.channels);
  }

  lemma {:induction false} IdealRoutesQuiet<S(!new)>(w: World<S>, n: nat, hi: nat, t: int)
    requires w.schedule.WellFormed() && n < |w.schedule.nodes| && !w.schedule.nodes[n].origin.Track? && t < w.entry
    requires w.schedule.nodes[n].incomingStart <= hi <= w.schedule.nodes[n].incomingEnd
    ensures IdealRoutes(w, n, hi, t) == Silence(w.schedule.channels)
    decreases hi
  {
    hide IdealPort;
    assert w.schedule.NodeInPlace(n);
    if hi > w.schedule.nodes[n].incomingStart {
      IdealRoutesQuiet(w, n, hi - 1, t);
      assert w.schedule.RouteInPlace(hi - 1);
      var route := w.schedule.routes[hi - 1];
      ScaledQuiet(w, route.source, route.port, t, route.gain.At(t));
    }
  }

  lemma {:induction false} IdealBindingsQuiet<S(!new)>(w: World<S>, n: nat, post: bool, j: nat, hi: nat, bus: nat, t: int)
    requires w.schedule.WellFormed() && n < |w.schedule.nodes| && t < w.entry
    requires j < |w.schedule.nodes[n].RackAt(post).slots| == |w.schedule.nodes[n].RackAt(post).bindings|
    requires hi <= |w.schedule.nodes[n].RackAt(post).bindings[j]|
    ensures IdealBindings(w, n, post, j, hi, bus, t) == Silence(w.schedule.channels)
    decreases hi
  {
    hide IdealPort;
    assert w.schedule.NodeInPlace(n);
    if hi > 0 {
      IdealBindingsQuiet(w, n, post, j, hi - 1, bus, t);
      var rack := w.schedule.nodes[n].RackAt(post);
      var binding := rack.bindings[j][hi - 1];
      assert w.schedule.BindingInPlace(n, binding, rack.buses[j]);
      var source := w.schedule.sidechainSources[binding.sourceBuffer];
      ScaledQuiet(w, source.node, source.port, t, binding.gain.At(t));
    }
  }

  lemma IdealAuxQuiet<S(!new)>(w: World<S>, n: nat, post: bool, j: nat, t: int)
    requires w.schedule.WellFormed() && n < |w.schedule.nodes| && j < |w.schedule.nodes[n].RackAt(post).slots| && t < w.entry
    ensures w.schedule.NodeInPlace(n)
    ensures IdealAux(w, n, post, j, t) == seq(w.schedule.nodes[n].RackAt(post).buses[j], _ => Silence(w.schedule.channels))
  {
    hide IdealBindings;
    assert w.schedule.NodeInPlace(n);
    var rack := w.schedule.nodes[n].RackAt(post);
    forall bus | 0 <= bus < rack.buses[j]
      ensures IdealBindings(w, n, post, j, |rack.bindings[j]|, bus, t) == Silence(w.schedule.channels)
    {
      IdealBindingsQuiet(w, n, post, j, |rack.bindings[j]|, bus, t);
    }
  }

  lemma IdealRackInputQuiet<S(!new)>(w: World<S>, n: nat, post: bool, t: int)
    requires w.schedule.WellFormed() && n < |w.schedule.nodes| && t < w.entry
    ensures IdealRackInput(w, n, post, t) == Silence(w.schedule.channels)
  {
    hide IdealContributions, IdealRoutes, Advanced, IdealMain, IdealAuxes;
    assert w.schedule.NodeInPlace(n);
    if post {
      ScaleSilence(w.schedule.channels, w.schedule.nodes[n].fader.At(t));
    } else {
      if w.schedule.nodes[n].origin.Track? {
        IdealContributionsQuiet(w, n, w.schedule.nodes[n].contributionEnd, t);
      } else {
        IdealRoutesQuiet(w, n, w.schedule.nodes[n].incomingEnd, t);
      }
      ScaleSilence(w.schedule.channels, w.schedule.nodes[n].trim);
    }
  }

  // ------------------------------------------------------------------ everything arrives late by its latency

  lemma ScopeAuxArrives<S(!new)>(s: Schedule<S>, k: nat, length: nat)
    requires s.WellFormed() && k < |s.contributions| && RackTimed(s.contributions[k])
    requires SlotLatencies(s.contributions[k].rack.slots) <= length && |s.contributions[k].rack.buses| == |s.contributions[k].rack.slots|
    ensures var rack := s.contributions[k].rack;
            RackAuxArrives(rack.slots, rack.buses, s.channels, SilentAux(rack, s.channels, length), SilentAux(rack, s.channels, length), length)
  {
    var rack := s.contributions[k].rack;
    var aux := SilentAux(rack, s.channels, length);
    forall j | 0 <= j < |rack.slots|
      ensures AuxArrives(aux[j], aux[j], rack.buses[j], s.channels, rack.slots[j].inputDelay, length)
    {
      LatenciesGrow(rack.slots, j);
      assert SilentBuses(rack.buses[j], s.channels, rack.slots[j].inputDelay) + aux[j][..length - rack.slots[j].inputDelay] == aux[j];
    }
  }

  /** The whole run of a scope rack is its latency in silence and then what it does without delays. */
  lemma ScopeArrives<S(!new)>(w: World<S>, plan: Latency.Plan, k: nat, length: nat)
    requires Prepared(w.schedule, plan) && k < |w.schedule.contributions|
    requires SlotLatencies(w.schedule.contributions[k].rack.slots) <= length
    ensures w.schedule.ContributionInPlace(k)
    ensures var c := w.schedule.contributions[k];
            var main, aux := ScopeInput(w, k, length), SilentAux(c.rack, w.schedule.channels, length);
            var out := Advanced(c.rack.slots, |c.rack.slots|, RackStart(w, c), main, aux);
            && out.Some? && |out.value| == length - SlotLatencies(c.rack.slots)
            && Stage(c.rack.slots, |c.rack.slots|, RackStart(w, c), main, aux)
               == Some(SilentFrames(w.schedule.channels, SlotLatencies(c.rack.slots)) + out.value)
  {
    hide Advanced, Stage, ScopeInput, SilentAux, CompensableRack, Extended, SidechainsTimed, Latency.Solved, SlotLatencies;
    var c := w.schedule.contributions[k];
    assert w.schedule.ContributionInPlace(k) && RackTimed(c);
    ScopeAuxArrives(w.schedule, k, length);
    var main := ScopeInput(w, k, length);
    assert SilentFrames(w.schedule.channels, 0) + main == main;
    RackArrives(c.rack.slots, |c.rack.slots|, w.schedule.channels, c.rack.buses, RackStart(w, c), 0, main,
                SilentAux(c.rack, w.schedule.channels, length), SilentAux(c.rack, w.schedule.channels, length));
    assert c.rack.slots[..|c.rack.slots|] == c.rack.slots;
  }

  lemma ContributionIsTimed<S(!new)>(s: Schedule<S>, plan: Latency.Plan, k: nat)
    requires s.WellFormed() && Planned(s, plan) && Extended(s) && k < |s.contributions|
    ensures s.ContributionInPlace(k) && IsExtended(s.contributions[k]) && RackTimed(s.contributions[k])
  {}

  /** A contribution arrives late by exactly its intrinsic latency, and nothing of it or its tail is cut off. */
  lemma ContributionTransparent<S(!new)>(w: World<S>, plan: Latency.Plan, k: nat, e: int)
    requires Prepared(w.schedule, plan) && k < |w.schedule.contributions|
    ensures ContributionAt(w, k, e) == IdealContribution(w, k, e - Intrinsic(w.schedule.contributions[k]))
  {
    hide Stage, Advanced, ScopeInput, SilentAux, SlotLatencies, Planned, Extended, SidechainsTimed, AllCompensable;
    ContributionIsTimed(w.schedule, plan, k);
    var c := w.schedule.contributions[k];
    var start, latency := RackStart(w, c), SlotLatencies(c.rack.slots);
    if e >= w.entry && Executes(c, e) {
      var length := if e - start + 1 < latency then latency else e - start + 1;
      ScopeArrives(w, plan, k, length);
      ScopeRunIsStream(w, k, length, e - start);
      ShapeSilence(w.schedule.channels, c.editGain.At(e - latency));
    }
  }

  lemma {:induction false} ContributionsTransparent<S(!new)>(w: World<S>, plan: Latency.Plan, n: nat, hi: nat, e: int)
    requires Prepared(w.schedule, plan) && n < |w.schedule.nodes| && w.schedule.nodes[n].origin.Track?
    requires w.schedule.nodes[n].contributionStart <= hi <= w.schedule.nodes[n].contributionEnd
    ensures SumContributions(w, n, hi, e) == IdealContributions(w, n, hi, e - w.schedule.nodes[n].latency.input)
    decreases hi
  {
    hide ContributionAt, IdealContribution, Intrinsic, Planned, Extended, AllCompensable, SidechainsTimed;
    assert w.schedule.NodeInPlace(n);
    if hi > w.schedule.nodes[n].contributionStart {
      ContributionsTransparent(w, plan, n, hi - 1, e);
      ContributionEquation(w.schedule, plan, hi - 1);
      ContributionTransparent(w, plan, hi - 1, e - w.schedule.contributions[hi - 1].compensation);
    }
  }

  lemma {:induction false} RoutesTransparent<S(!new)>(w: World<S>, plan: Latency.Plan, n: nat, hi: nat, e: int)
    requires Prepared(w.schedule, plan) && n < |w.schedule.nodes| && !w.schedule.nodes[n].origin.Track?
    requires w.schedule.nodes[n].incomingStart <= hi <= w.schedule.nodes[n].incomingEnd
    ensures SumRoutes(w, n, hi, e) == IdealRoutes(w, n, hi, e - w.schedule.nodes[n].latency.input)
    decreases n, 0, hi
  {
    hide PortAt, IdealPort, Planned, Extended, AllCompensable, SidechainsTimed;
    assert w.schedule.NodeInPlace(n);
    if hi > w.schedule.nodes[n].incomingStart {
      RoutesTransparent(w, plan, n, hi - 1, e);
      RouteEquation(w.schedule, plan, hi - 1);
      var route := w.schedule.routes[hi - 1];
      PortTransparent(w, plan, route.source, route.port, e - route.compensation);
    }
  }

  lemma {:induction false} InputTransparent<S(!new)>(w: World<S>, plan: Latency.Plan, n: nat, e: int)
    requires Prepared(w.schedule, plan) && n < |w.schedule.nodes|
    ensures InputAt(w, n, e) == IdealInput(w, n, e - w.schedule.nodes[n].latency.input)
    decreases n, 1
  {
    hide SumContributions, IdealContributions, SumRoutes, IdealRoutes, Planned, Extended, AllCompensable, SidechainsTimed;
    assert w.schedule.NodeInPlace(n);
    if w.schedule.nodes[n].origin.Track? {
      ContributionsTransparent(w, plan, n, w.schedule.nodes[n].contributionEnd, e);
    } else {
      RoutesTransparent(w, plan, n, w.schedule.nodes[n].incomingEnd, e);
    }
  }

  lemma SumBindingsStep<S(!new)>(w: World<S>, n: nat, post: bool, j: nat, hi: nat, bus: nat, e: int)
    requires w.schedule.WellFormed() && n < |w.schedule.nodes|
    requires j < |w.schedule.nodes[n].RackAt(post).slots| == |w.schedule.nodes[n].RackAt(post).bindings|
    requires hi <= |w.schedule.nodes[n].RackAt(post).bindings[j]|
    ensures hi == 0 ==> SumBindings(w, n, post, j, hi, bus, e) == Silence(w.schedule.channels)
    ensures hi > 0 ==>
              && j < |w.schedule.nodes[n].RackAt(post).buses|
              && w.schedule.BindingInPlace(n, w.schedule.nodes[n].RackAt(post).bindings[j][hi - 1], w.schedule.nodes[n].RackAt(post).buses[j])
    ensures hi > 0 ==>
              var rack := w.schedule.nodes[n].RackAt(post);
              var binding := rack.bindings[j][hi - 1];
              var before := SumBindings(w, n, post, j, hi - 1, bus, e);
              var source := w.schedule.sidechainSources[binding.sourceBuffer];
              SumBindings(w, n, post, j, hi, bus, e)
              == if binding.bus != bus then before
                 else Add(before, Scale(PortAt(w, source.node, source.port, e - binding.compensation), binding.gain.At(e - rack.slots[j].inputDelay)))
  {
    hide PortAt;
    assert w.schedule.NodeInPlace(n);
  }

  lemma IdealBindingsStep<S(!new)>(w: World<S>, n: nat, post: bool, j: nat, hi: nat, bus: nat, t: int)
    requires w.schedule.WellFormed() && n < |w.schedule.nodes|
    requires j < |w.schedule.nodes[n].RackAt(post).slots| == |w.schedule.nodes[n].RackAt(post).bindings|
    requires hi <= |w.schedule.nodes[n].RackAt(post).bindings[j]|
    ensures hi == 0 ==> IdealBindings(w, n, post, j, hi, bus, t) == Silence(w.schedule.channels)
    ensures hi > 0 ==>
              && j < |w.schedule.nodes[n].RackAt(post).buses|
              && w.schedule.BindingInPlace(n, w.schedule.nodes[n].RackAt(post).bindings[j][hi - 1], w.schedule.nodes[n].RackAt(post).buses[j])
    ensures hi > 0 ==>
              var binding := w.schedule.nodes[n].RackAt(post).bindings[j][hi - 1];
              var before := IdealBindings(w, n, post, j, hi - 1, bus, t);
              var source := w.schedule.sidechainSources[binding.sourceBuffer];
              IdealBindings(w, n, post, j, hi, bus, t)
              == if binding.bus != bus then before else Add(before, Scale(IdealPort(w, source.node, source.port, t), binding.gain.At(t)))
  {
    hide IdealPort;
    assert w.schedule.NodeInPlace(n);
  }

  /** One binding waits for exactly what its source lacks to the processor it feeds. */
  lemma BindingEquation<S(!new)>(s: Schedule<S>, n: nat, post: bool, j: nat, b: nat)
    requires s.WellFormed() && SidechainsTimed(s) && n < |s.nodes|
    requires j < |s.nodes[n].RackAt(post).slots| == |s.nodes[n].RackAt(post).bindings| && b < |s.nodes[n].RackAt(post).bindings[j]|
    ensures s.NodeInPlace(n) && s.BindingInPlace(n, s.nodes[n].RackAt(post).bindings[j][b], s.nodes[n].RackAt(post).buses[j])
    ensures var rack := s.nodes[n].RackAt(post);
            var source := s.sidechainSources[rack.bindings[j][b].sourceBuffer];
            rack.bindings[j][b].compensation + s.nodes[source.node].latency.At(source.port) == rack.slots[j].inputDelay
  {
    hide SignalDelay;
    assert s.NodeInPlace(n);
    var rack := s.nodes[n].RackAt(post);
    assert SidechainTimed(s, n, post, j);
    assert s.BindingInPlace(n, rack.bindings[j][b], rack.buses[j]);
  }

  /** At the execution sample at which a processor hears the main signal of time `t`, its auxiliary buses carry the
      sidechains of the same time, with gains read at that time. */
  lemma {:induction false} SidechainTransparent<S(!new)>(w: World<S>, plan: Latency.Plan, n: nat, post: bool, j: nat, hi: nat, bus: nat, e: int)
    requires Prepared(w.schedule, plan) && n < |w.schedule.nodes|
    requires j < |w.schedule.nodes[n].RackAt(post).slots| == |w.schedule.nodes[n].RackAt(post).bindings|
    requires hi <= |w.schedule.nodes[n].RackAt(post).bindings[j]|
    ensures SumBindings(w, n, post, j, hi, bus, e)
            == IdealBindings(w, n, post, j, hi, bus, e - w.schedule.nodes[n].RackAt(post).slots[j].inputDelay)
    decreases n, 0, hi
  {
    hide PortAt, IdealPort, SumBindings, IdealBindings, Planned, Extended, AllCompensable, SidechainsTimed;
    var rack := w.schedule.nodes[n].RackAt(post);
    SumBindingsStep(w, n, post, j, hi, bus, e);
    IdealBindingsStep(w, n, post, j, hi, bus, e - rack.slots[j].inputDelay);
    if hi > 0 {
      SidechainTransparent(w, plan, n, post, j, hi - 1, bus, e);
      BindingEquation(w.schedule, n, post, j, hi - 1);
      var binding := rack.bindings[j][hi - 1];
      var source := w.schedule.sidechainSources[binding.sourceBuffer];
      PortTransparent(w, plan, source.node, source.port, e - binding.compensation);
    }
  }

  lemma {:induction false} AuxTransparent<S(!new)>(w: World<S>, plan: Latency.Plan, n: nat, post: bool, j: nat, e: int)
    requires Prepared(w.schedule, plan) && n < |w.schedule.nodes| && j < |w.schedule.nodes[n].RackAt(post).slots|
    ensures AuxAt(w, n, post, j, e) == IdealAux(w, n, post, j, e - w.schedule.nodes[n].RackAt(post).slots[j].inputDelay)
    decreases n, 1
  {
    hide SumBindings, IdealBindings, Planned, Extended, AllCompensable, SidechainsTimed;
    assert w.schedule.NodeInPlace(n);
    var rack := w.schedule.nodes[n].RackAt(post);
    forall bus | 0 <= bus < rack.buses[j]
      ensures AuxAt(w, n, post, j, e)[bus] == IdealAux(w, n, post, j, e - rack.slots[j].inputDelay)[bus]
    {
      SidechainTransparent(w, plan, n, post, j, |rack.bindings[j]|, bus, e);
    }
  }

  /** How late the input of a rack is. */
  ghost function RackDelay<S(!new)>(s: Schedule<S>, n: nat, post: bool): nat
    requires n < |s.nodes|
  {
    if post then s.nodes[n].latency.preFader else s.nodes[n].latency.input
  }

  lemma SlotDelay<S(!new)>(s: Schedule<S>, n: nat, post: bool, j: nat)
    requires s.WellFormed() && SidechainsTimed(s) && n < |s.nodes| && j < |s.nodes[n].RackAt(post).slots|
    ensures s.nodes[n].RackAt(post).slots[j].inputDelay == RackDelay(s, n, post) + SlotLatencies(s.nodes[n].RackAt(post).slots[..j])
  {
    hide SlotLatencies;
    assert SidechainTimed(s, n, post, j);
  }

  /** The auxiliary history of a rack is that of the mixer without delays, late for each processor by its own signal delay. */
  lemma {:induction false} HistoryArrives<S(!new)>(w: World<S>, plan: Latency.Plan, n: nat, post: bool, length: nat)
    requires Prepared(w.schedule, plan) && n < |w.schedule.nodes|
    requires RackDelay(w.schedule, n, post) + SlotLatencies(w.schedule.nodes[n].RackAt(post).slots) <= length
    ensures var rack := w.schedule.nodes[n].RackAt(post);
            && DelaysAccumulate(rack.slots, RackDelay(w.schedule, n, post))
            && RackAuxArrives(rack.slots, rack.buses, w.schedule.channels,
                              IdealAuxes(w, n, post, length - RackDelay(w.schedule, n, post)), AuxHistory(w, n, post, length), length)
    decreases n, 3
  {
    hide AuxAt, IdealAux, AuxArrives, Planned, Extended, AllCompensable, SidechainsTimed, SlotLatencies;
    assert w.schedule.NodeInPlace(n);
    var rack, delay := w.schedule.nodes[n].RackAt(post), RackDelay(w.schedule, n, post);
    var aux, late := IdealAuxes(w, n, post, length - delay), AuxHistory(w, n, post, length);
    forall j | 0 <= j < |rack.slots|
      ensures rack.slots[j].inputDelay == delay + SlotLatencies(rack.slots[..j])
      ensures AuxArrives(aux[j], late[j], rack.buses[j], w.schedule.channels, rack.slots[j].inputDelay, length)
    {
      SlotDelay(w.schedule, n, post, j);
      LatenciesGrow(rack.slots, j);
      AuxStreamArrives(w, plan, n, post, j, length, aux[j], late[j]);
    }
  }

  lemma {:induction false} AuxStreamArrives<S(!new)>(w: World<S>, plan: Latency.Plan, n: nat, post: bool, j: nat, length: nat, aux: seq<AuxFrame>, late: seq<AuxFrame>)
    requires Prepared(w.schedule, plan) && n < |w.schedule.nodes| && j < |w.schedule.nodes[n].RackAt(post).slots|
    requires w.schedule.nodes[n].RackAt(post).slots[j].inputDelay <= length && length - w.schedule.nodes[n].RackAt(post).slots[j].inputDelay <= |aux|
    requires forall i :: 0 <= i < |aux| ==> aux[i] == IdealAux(w, n, post, j, w.entry + i)
    requires |late| == length && forall i :: 0 <= i < length ==> late[i] == AuxAt(w, n, post, j, w.entry + i)
    ensures w.schedule.NodeInPlace(n)
    ensures AuxArrives(aux, late, w.schedule.nodes[n].RackAt(post).buses[j], w.schedule.channels, w.schedule.nodes[n].RackAt(post).slots[j].inputDelay, length)
    decreases n, 2
  {
    hide AuxAt, IdealAux, Planned, Extended, AllCompensable, SidechainsTimed;
    assert w.schedule.NodeInPlace(n);
    var rack := w.schedule.nodes[n].RackAt(post);
    var delay := rack.slots[j].inputDelay;
    var arrived := SilentBuses(rack.buses[j], w.schedule.channels, delay) + aux[..length - delay];
    forall i | 0 <= i < length
      ensures late[i] == arrived[i]
    {
      AuxTransparent(w, plan, n, post, j, w.entry + i);
      if i < delay {
        IdealAuxQuiet(w, n, post, j, w.entry + i - delay);
      }
    }
  }

  lemma {:induction false} RackInputTransparent<S(!new)>(w: World<S>, plan: Latency.Plan, n: nat, post: bool, e: int)
    requires Prepared(w.schedule, plan) && n < |w.schedule.nodes|
    ensures RackInputAt(w, n, post, e) == IdealRackInput(w, n, post, e - RackDelay(w.schedule, n, post))
    decreases n, if post then 6 else 2
  {
    hide InputAt, IdealInput, RackOutputAt, IdealRackOutput, Planned, Extended, AllCompensable, SidechainsTimed;
    if post {
      NodeEquations(w.schedule, plan, n);
      RackTransparent(w, plan, n, false, e);
    } else {
      InputTransparent(w, plan, n, e);
    }
  }

  lemma {:induction false} MainArrives<S(!new)>(w: World<S>, plan: Latency.Plan, n: nat, post: bool, length: nat)
    requires Prepared(w.schedule, plan) && n < |w.schedule.nodes| && RackDelay(w.schedule, n, post) <= length
    ensures var delay := RackDelay(w.schedule, n, post);
            RackInput(w, n, post, length) == SilentFrames(w.schedule.channels, delay) + IdealMain(w, n, post, length - delay)
    decreases n, if post then 7 else 3
  {
    hide RackInputAt, IdealRackInput, Planned, Extended, AllCompensable, SidechainsTimed;
    var delay := RackDelay(w.schedule, n, post);
    var arrived := SilentFrames(w.schedule.channels, delay) + IdealMain(w, n, post, length - delay);
    forall i | 0 <= i < length
      ensures RackInput(w, n, post, length)[i] == arrived[i]
    {
      RackInputTransparent(w, plan, n, post, w.entry + i);
      if i < delay {
        IdealRackInputQuiet(w, n, post, w.entry + i - delay);
      }
    }
  }

  /** The whole run of a rack is its delay and its latency in silence and then what it does without delays. */
  lemma {:induction false} RackRunArrives<S(!new)>(w: World<S>, plan: Latency.Plan, n: nat, post: bool, length: nat)
    requires Prepared(w.schedule, plan) && n < |w.schedule.nodes|
    requires RackDelay(w.schedule, n, post) + SlotLatencies(w.schedule.nodes[n].RackAt(post).slots) <= length
    ensures var slots, delay := w.schedule.nodes[n].RackAt(post).slots, RackDelay(w.schedule, n, post);
            var out := Advanced(slots, |slots|, w.entry, IdealMain(w, n, post, length - delay), IdealAuxes(w, n, post, length - delay));
            && out.Some? && |out.value| == length - delay - SlotLatencies(slots)
            && Stage(slots, |slots|, w.entry, RackInput(w, n, post, length), AuxHistory(w, n, post, length))
               == Some(SilentFrames(w.schedule.channels, delay + SlotLatencies(slots)) + out.value)
    decreases n, if post then 8 else 4
  {
    hide Advanced, Stage, RackInput, IdealMain, AuxHistory, IdealAuxes, CompensableRack, Planned, Extended, SidechainsTimed;
    hide SlotLatencies, RackAuxArrives, DelaysAccumulate;
    var rack, delay := w.schedule.nodes[n].RackAt(post), RackDelay(w.schedule, n, post);
    MainArrives(w, plan, n, post, length);
    HistoryArrives(w, plan, n, post, length);
    WholeRackArrives(rack, w.schedule.channels, w.entry, delay, IdealMain(w, n, post, length - delay),
                     IdealAuxes(w, n, post, length - delay), AuxHistory(w, n, post, length));
  }

  lemma WholeRackArrives<S(!new)>(rack: Rack<S>, channels: nat, entry: int, delay: nat, main: seq<Frame>, aux: seq<seq<AuxFrame>>, late: seq<seq<AuxFrame>>)
    requires CompensableRack(rack.slots, channels, rack.buses) && DelaysAccumulate(rack.slots, delay) && SlotLatencies(rack.slots) <= |main|
    requires RackAuxArrives(rack.slots, rack.buses, channels, aux, late, delay + |main|)
    ensures var out := Advanced(rack.slots, |rack.slots|, entry, main, aux);
            && out.Some? && |out.value| == |main| - SlotLatencies(rack.slots)
            && Stage(rack.slots, |rack.slots|, entry, SilentFrames(channels, delay) + main, late)
               == Some(SilentFrames(channels, delay + SlotLatencies(rack.slots)) + out.value)
  {
    hide Advanced, Stage, CompensableRack, DelaysAccumulate, SlotLatencies;
    RackArrives(rack.slots, |rack.slots|, channels, rack.buses, entry, delay, main, aux, late);
    assert rack.slots[..|rack.slots|] == rack.slots;
  }

  /** A rack hands on, late by its own latency as well, what it does without delays. */
  lemma {:induction false} RackTransparent<S(!new)>(w: World<S>, plan: Latency.Plan, n: nat, post: bool, e: int)
    requires Prepared(w.schedule, plan) && n < |w.schedule.nodes|
    ensures RackOutputAt(w, n, post, e)
            == IdealRackOutput(w, n, post, e - RackDelay(w.schedule, n, post) - SlotLatencies(w.schedule.nodes[n].RackAt(post).slots))
    decreases n, if post then 9 else 5
  {
    hide Advanced, Stage, RackInput, IdealMain, AuxHistory, IdealAuxes, Planned, Extended, AllCompensable, SidechainsTimed;
    var slots, delay := w.schedule.nodes[n].RackAt(post).slots, RackDelay(w.schedule, n, post);
    var latency := SlotLatencies(slots);
    if e >= w.entry {
      var length := if e - w.entry + 1 < delay + latency then delay + latency else e - w.entry + 1;
      RackRunArrives(w, plan, n, post, length);
      RackRunIsStream(w, n, post, length, e - w.entry);
    }
  }

  /** Every port of every node carries, late by its own latency, exactly what the mixer without delays carries. */
  lemma {:induction false} PortTransparent<S(!new)>(w: World<S>, plan: Latency.Plan, n: nat, port: Port, e: int)
    requires Prepared(w.schedule, plan) && n < |w.schedule.nodes|
    ensures PortAt(w, n, port, e) == IdealPort(w, n, port, e - w.schedule.nodes[n].latency.At(port))
    decreases n, 10
  {
    hide RackOutputAt, IdealRackOutput, Planned, Extended, AllCompensable, SidechainsTimed;
    NodeEquations(w.schedule, plan, n);
    RackTransparent(w, plan, n, false, e);
    RackTransparent(w, plan, n, true, e);
  }

  /** The public output is the mixer without delays at every sample. */
  lemma OutputTransparent<S(!new)>(w: World<S>, plan: Latency.Plan, p: int)
    requires Prepared(w.schedule, plan)
    ensures PublicAt(w, p) == IdealPort(w, w.schedule.output, PostMute, p)
  {
    hide PortAt, IdealPort, Planned, Extended, AllCompensable, SidechainsTimed;
    PortTransparent(w, plan, w.schedule.output, PostMute, p + w.schedule.lookahead);
  }

  // ------------------------------------------------------------------ racks that only delay

  /** A rack of pure delays is not there at all in the mixer without delays. */
  lemma DelaysVanish<S(!new)>(w: World<S>, n: nat, post: bool, t: int)
    requires w.schedule.WellFormed() && n < |w.schedule.nodes| && t >= w.entry
    requires forall j :: 0 <= j < |w.schedule.nodes[n].RackAt(post).slots| ==> PureDelay(w.schedule.nodes[n].RackAt(post).slots[j].processor, w.schedule.channels)
    ensures IdealRackOutput(w, n, post, t) == IdealRackInput(w, n, post, t)
  {
    hide IdealRackInput, IdealAuxes, Advanced, PureDelay;
    var slots := w.schedule.nodes[n].RackAt(post).slots;
    var length := t - w.entry + 1 + SlotLatencies(slots);
    PureVanishes(slots, |slots|, w.schedule.channels, w.entry, IdealMain(w, n, post, length), IdealAuxes(w, n, post, length));
    assert slots[..|slots|] == slots;
  }

  /** A scope rack of pure delays leaves the contribution as its source, its gains and nothing else. */
  lemma ScopeDelaysVanish<S(!new)>(w: World<S>, k: nat, t: int)
    requires w.schedule.WellFormed() && k < |w.schedule.contributions| && w.schedule.contributions[k].sourceLatency == 0
    requires t >= RackStart(w, w.schedule.contributions[k]) && Executes(w.schedule.contributions[k], t + Intrinsic(w.schedule.contributions[k]))
    requires forall j :: 0 <= j < |w.schedule.contributions[k].rack.slots| ==> PureDelay(w.schedule.contributions[k].rack.slots[j].processor, w.schedule.channels)
    ensures var c := w.schedule.contributions[k];
            IdealContribution(w, k, t) == Shape(Scale(SourceAt(w, k, t), c.scopeGain.At(t)), c.editGain.At(t))
  {
    hide SourceAt, SilentAux, Advanced, PureDelay;
    var c := w.schedule.contributions[k];
    assert w.schedule.ContributionInPlace(k);
    var length := t - RackStart(w, c) + 1 + SlotLatencies(c.rack.slots);
    PureVanishes(c.rack.slots, |c.rack.slots|, w.schedule.channels, RackStart(w, c), ScopeInput(w, k, length), SilentAux(c.rack, w.schedule.channels, length));
    assert c.rack.slots[..|c.rack.slots|] == c.rack.slots;
  }
}
