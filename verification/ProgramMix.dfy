/** What a compiled program means: a mixer without any delay, read off the program itself.
    The prepared schedule is that mixer in dense form. */
module ProgramMix {
  import opened Frames
  import opened Graph
  import opened Processors
  import opened SourceFrames
  import opened Schedule
  import opened Compensation
  import opened Transparency
  import opened Preparation
  import opened Tails

  /** Routes and sidechains lead to later strips. */
  ghost predicate Acyclic<S(!new)>(p: Program<S>) {
    p.Compiled() && LeadsForward(p) && SidechainsLeadForward(p)
  }

  /** The contribution has not ended, or one of the declared tails of its processors, one after the other, has not. */
  ghost predicate Lasts<S>(c: PlannedContribution<S>, t: int) {
    Endless(c.tails) || t < c.end + AllFrames(c.tails)
  }

  /** Every processor of the contribution keeps the tail that it declares. */
  ghost predicate TailsKept<S>(c: PlannedContribution<S>, channels: nat) {
    RackKeepsTails(c.processors, channels, c.tails)
  }

  ghost function MixedScopeInput<S(!new)>(p: Program<S>, signal: (nat, int) -> Frame, k: nat, start: int, length: nat): (main: seq<Frame>)
    requires p.Compiled() && k < |p.contributions|
    ensures |main| == length
  {
    var c := p.contributions[k];
    assert p.ContributionCompiled(c);
    seq(length, i requires 0 <= i < length =>
      var f := Demand(c.timeMap, p.rate, c.start, c.end, start + i);
      Scale(if f < 0 then Silence(p.channels) else signal(k, f), c.scopeGain.At(start + i)))
  }

  ghost function SilentSidechains<S>(rack: seq<PlannedProcessor<S>>, channels: nat, length: nat): (aux: seq<seq<AuxFrame>>)
    ensures |aux| == |rack|
  {
    seq(|rack|, j requires 0 <= j < |rack| => SilentBuses(rack[j].buses, channels, length))
  }

  /** One contribution at Sequence sample `t` of an epoch: its source frames under scope gain through its processors,
      which begin with the epoch or the placement, and edit gain. It has no end of its own as long as its processors
      keep their tails; one that does not is heard for as long as the declared tails. */
  ghost function MixedContribution<S(!new)>(p: Program<S>, signal: (nat, int) -> Frame, entry: int, k: nat, t: int): Frame
    requires p.Compiled() && k < |p.contributions|
  {
    var c := p.contributions[k];
    var start := Max(entry, c.start);
    if t < start || !(TailsKept(c, p.channels) || Lasts(c, t)) then Silence(p.channels) else
    var length := t - start + 1 + PrefixLatency(c.processors);
    var out := Advanced(Slots(c.processors, 0), |c.processors|, start, MixedScopeInput(p, signal, k, start, length), SilentSidechains(c.processors, p.channels, length));
    if out.None? then Silence(p.channels) else Shape(Last(out.value, p.channels), c.editGain.At(t))
  }

  /** The first `hi` contributions of the program, as far as they belong to strip `n`. */
  ghost function MixedContributions<S(!new)>(p: Program<S>, signal: (nat, int) -> Frame, entry: int, n: nat, hi: nat, t: int): Frame
    requires p.Compiled() && hi <= |p.contributions|
    decreases hi
  {
    if hi == 0 then Silence(p.channels) else
    var before := MixedContributions(p, signal, entry, n, hi - 1, t);
    if p.contributions[hi - 1].track != n then before else Add(before, MixedContribution(p, signal, entry, hi - 1, t))
  }

  /** The first `hi` Routes that lead into strip `n`. */
  ghost function MixedRoutes<S(!new)>(p: Program<S>, signal: (nat, int) -> Frame, entry: int, n: nat, hi: nat, t: int): Frame
    requires Acyclic(p) && n < |p.strips| && hi <= |RoutesInto(p.routes, n)|
    decreases n, 0, hi
  {
    if hi == 0 then Silence(p.channels) else
    var route := RoutesInto(p.routes, n)[hi - 1];
    IntoIsPlanned(p.routes, n, hi - 1);
    Add(MixedRoutes(p, signal, entry, n, hi - 1, t), Scale(MixedPort(p, signal, entry, route.source, route.port, t), route.gain.At(t)))
  }

  ghost function MixedInput<S(!new)>(p: Program<S>, signal: (nat, int) -> Frame, entry: int, n: nat, t: int): Frame
    requires Acyclic(p) && n < |p.strips|
    decreases n, 1
  {
    if p.strips[n].origin.Track? then MixedContributions(p, signal, entry, n, |p.contributions|, t)
    else MixedRoutes(p, signal, entry, n, |RoutesInto(p.routes, n)|, t)
  }

  /** The first `hi` sidechain Routes of one processor, as far as they lead into auxiliary bus `bus`. */
  ghost function MixedSidechains<S(!new)>(p: Program<S>, signal: (nat, int) -> Frame, entry: int, n: nat, behind: bool, j: nat, hi: nat, bus: nat, t: int): Frame
    requires Acyclic(p) && n < |p.strips| && j < |p.strips[n].RackAt(behind)| && hi <= |p.strips[n].RackAt(behind)[j].sidechains|
    decreases n, 0, hi
  {
    if hi == 0 then Silence(p.channels) else
    var before, route := MixedSidechains(p, signal, entry, n, behind, j, hi - 1, bus, t), p.strips[n].RackAt(behind)[j].sidechains[hi - 1];
    assert LeadBefore(p.strips[n].RackAt(behind)[j].sidechains, n);
    if route.bus != bus then before else
    Add(before, Scale(MixedPort(p, signal, entry, route.source, route.port, t), route.gain.At(t)))
  }

  ghost function MixedAux<S(!new)>(p: Program<S>, signal: (nat, int) -> Frame, entry: int, n: nat, behind: bool, j: nat, t: int): AuxFrame
    requires Acyclic(p) && n < |p.strips| && j < |p.strips[n].RackAt(behind)|
    decreases n, 1
  {
    var planned := p.strips[n].RackAt(behind)[j];
    seq(planned.buses, bus requires 0 <= bus < planned.buses => MixedSidechains(p, signal, entry, n, behind, j, |planned.sidechains|, bus, t))
  }

  ghost function MixedAuxes<S(!new)>(p: Program<S>, signal: (nat, int) -> Frame, entry: int, n: nat, behind: bool, length: nat): (aux: seq<seq<AuxFrame>>)
    requires Acyclic(p) && n < |p.strips|
    ensures |aux| == |p.strips[n].RackAt(behind)|
    decreases n, 2
  {
    var rack := p.strips[n].RackAt(behind);
    seq(|rack|, j requires 0 <= j < |rack| => seq(length, i requires 0 <= i < length => MixedAux(p, signal, entry, n, behind, j, entry + i)))
  }

  ghost function MixedRackInput<S(!new)>(p: Program<S>, signal: (nat, int) -> Frame, entry: int, n: nat, behind: bool, t: int): Frame
    requires Acyclic(p) && n < |p.strips|
    decreases n, if behind then 6 else 2
  {
    if behind then Scale(MixedRackOutput(p, signal, entry, n, false, t), p.strips[n].fader.At(t))
    else Scale(MixedInput(p, signal, entry, n, t), p.strips[n].trim)
  }

  ghost function MixedMain<S(!new)>(p: Program<S>, signal: (nat, int) -> Frame, entry: int, n: nat, behind: bool, length: nat): (main: seq<Frame>)
    requires Acyclic(p) && n < |p.strips|
    ensures |main| == length
    decreases n, if behind then 7 else 3
  {
    seq(length, i requires 0 <= i < length => MixedRackInput(p, signal, entry, n, behind, entry + i))
  }

  /** What the processors of a rack make of its input, beginning with the epoch; they look ahead by their latencies. */
  ghost function MixedRackOutput<S(!new)>(p: Program<S>, signal: (nat, int) -> Frame, entry: int, n: nat, behind: bool, t: int): Frame
    requires Acyclic(p) && n < |p.strips|
    decreases n, if behind then 8 else 4
  {
    if t < entry then Silence(p.channels) else
    var rack := p.strips[n].RackAt(behind);
    var length := t - entry + 1 + PrefixLatency(rack);
    var out := Advanced(Slots(rack, 0), |rack|, entry, MixedMain(p, signal, entry, n, behind, length), MixedAuxes(p, signal, entry, n, behind, length));
    if out.None? then Silence(p.channels) else Last(out.value, p.channels)
  }

  /** What one port of a strip carries at `t`. Every gain is read at `t`, and nothing is delayed. */
  ghost function MixedPort<S(!new)>(p: Program<S>, signal: (nat, int) -> Frame, entry: int, n: nat, port: Port, t: int): Frame
    requires Acyclic(p) && n < |p.strips|
    decreases n, 9
  {
    match port
    case PreFader => MixedRackOutput(p, signal, entry, n, false, t)
    case PostFaderPreMute => MixedRackOutput(p, signal, entry, n, true, t)
    case PostMute => if p.strips[n].muted then Silence(p.channels) else MixedRackOutput(p, signal, entry, n, true, t)
  }

  /** The Program Output at Sequence sample `t` of an epoch. */
  ghost function ProgramOutput<S(!new)>(p: Program<S>, signal: (nat, int) -> Frame, entry: int, t: int): Frame
    requires Acyclic(p)
  {
    MixedPort(p, signal, entry, |p.strips| - 1, PostMute, t)
  }

  lemma {:induction false} IntoIsPlanned(planned: seq<PlannedRoute>, n: nat, i: nat)
    requires i < |RoutesInto(planned, n)|
    ensures RoutesInto(planned, n)[i] in planned && RoutesInto(planned, n)[i].destination == n
    decreases |planned|
  {
    var head := planned[..|planned| - 1];
    if i < |RoutesInto(head, n)| {
      IntoIsPlanned(head, n, i);
    }
  }

  // ------------------------------------------------------------------ the schedule means the same

  ghost predicate Stands<S(!new)>(s: Schedule<S>, p: Program<S>) {
    s.WellFormed() && Acyclic(p) && Realizes(s, p)
  }

  lemma SameChannels<S(!new)>(s: Schedule<S>, p: Program<S>)
    requires Realizes(s, p)
    ensures s.channels == p.channels && s.rate == p.rate && s.maxBlock == p.maxBlock
    ensures |s.nodes| == |p.strips| && |s.contributions| == |p.contributions| && s.output == |p.strips| - 1
  {}

  lemma SameScopeInput<S(!new)>(w: World<S>, p: Program<S>, k: nat, length: nat)
    requires Stands(w.schedule, p) && k < |p.contributions|
    ensures k < |w.schedule.contributions| && ContributionRealized(w.schedule.contributions[k], p.contributions[k])
    ensures ScopeInput(w, k, length) == MixedScopeInput(p, w.signal, k, Max(w.entry, p.contributions[k].start), length)
    ensures SilentAux(w.schedule.contributions[k].rack, w.schedule.channels, length) == SilentSidechains(p.contributions[k].processors, p.channels, length)
  {
    hide NodeRealized, PrefixLatency, SlotLatencies;
    var s := w.schedule;
    SameChannels(s, p);
    assert ContributionRealized(s.contributions[k], p.contributions[k]);
    var main, mixed := ScopeInput(w, k, length), MixedScopeInput(p, w.signal, k, Max(w.entry, p.contributions[k].start), length);
    forall i | 0 <= i < length
      ensures main[i] == mixed[i]
    {
      assert s.ContributionInPlace(k) && p.ContributionCompiled(p.contributions[k]);
      assert main[i] == Scale(SourceAt(w, k, RackStart(w, s.contributions[k]) + i), p.contributions[k].scopeGain.At(RackStart(w, s.contributions[k]) + i));
    }
    var aux, silent := SilentAux(s.contributions[k].rack, s.channels, length), SilentSidechains(p.contributions[k].processors, p.channels, length);
    forall j | 0 <= j < |aux|
      ensures aux[j] == silent[j]
    {}
  }

  /** The source of a contribution is silent behind its placement. */
  lemma ScopeInputEnds<S(!new)>(p: Program<S>, signal: (nat, int) -> Frame, k: nat, start: int, length: nat)
    requires p.Compiled() && k < |p.contributions|
    ensures SilentFrom(MixedScopeInput(p, signal, k, start, length), p.channels, p.contributions[k].end - start)
  {
    var c := p.contributions[k];
    assert p.ContributionCompiled(c);
    var main := MixedScopeInput(p, signal, k, start, length);
    forall i | 0 <= i < length && c.end - start <= i
      ensures main[i] == Silence(p.channels)
    {
      var f := Demand(c.timeMap, p.rate, c.start, c.end, start + i);
      assert f < 0;
      assert main[i] == Scale(if f < 0 then Silence(p.channels) else signal(k, f), c.scopeGain.At(start + i));
      ScaleSilence(p.channels, c.scopeGain.At(start + i));
    }
  }

  /** What the processors of a contribution make of it, without any end. */
  ghost function WholeContribution<S(!new)>(p: Program<S>, signal: (nat, int) -> Frame, k: nat, start: int, t: int): Option<seq<Frame>>
    requires p.Compiled() && k < |p.contributions| && start <= t
  {
    var c := p.contributions[k];
    var length := t - start + 1 + PrefixLatency(c.processors);
    Advanced(Slots(c.processors, 0), |c.processors|, start, MixedScopeInput(p, signal, k, start, length), SilentSidechains(c.processors, p.channels, length))
  }

  /** Behind its placement and all of its tails nothing of a contribution is left, so nothing is cut off there. */
  lemma NothingIsCut<S(!new)>(p: Program<S>, signal: (nat, int) -> Frame, k: nat, start: int, t: int)
    requires p.Compiled() && k < |p.contributions| && start <= t && TailsKept(p.contributions[k], p.channels) && !Lasts(p.contributions[k], t)
    ensures var out := WholeContribution(p, signal, k, start, t);
            out.Some? ==> Last(out.value, p.channels) == Silence(p.channels)
  {
    hide PrefixLatency, AllFrames, Advanced, KeepsTail, MixedScopeInput, Slots;
    var c := p.contributions[k];
    assert p.ContributionCompiled(c);
    var length := t - start + 1 + PrefixLatency(c.processors);
    ScopeInputEnds(p, signal, k, start, length);
    RackFades(c.processors, c.tails, |c.processors|, p.channels, start, MixedScopeInput(p, signal, k, start, length),
              SilentSidechains(c.processors, p.channels, length), c.end - start);
    assert c.processors[..|c.processors|] == c.processors && c.tails[..|c.tails|] == c.tails;
  }

  /** The prepared extent of a contribution ends exactly where its declared tails do. */
  lemma ExecutesWhileItLasts<S(!new)>(c: Contribution<S>, planned: PlannedContribution<S>, t: int)
    requires ContributionRealized(c, planned) && t >= c.start
    ensures Executes(c, t + Intrinsic(c)) <==> Lasts(planned, t)
  {
    hide SameSlots, SlotLatencies, PrefixLatency;
    RackTailIs(planned.tails);
  }

  /** The contribution of the schedule, which is executed no longer than its declared tails, is that of the program. */
  lemma SameContribution<S(!new)>(w: World<S>, p: Program<S>, k: nat, t: int)
    requires Stands(w.schedule, p) && k < |p.contributions|
    ensures k < |w.schedule.contributions| && IdealContribution(w, k, t) == MixedContribution(p, w.signal, w.entry, k, t)
  {
    hide NodeRealized, PrefixLatency, SlotLatencies, ScopeInput, MixedScopeInput, SilentAux, SilentSidechains, Advanced, TailsKept, Lasts, Executes;
    var s := w.schedule;
    SameChannels(s, p);
    assert ContributionRealized(s.contributions[k], p.contributions[k]);
    var c, planned := s.contributions[k], p.contributions[k];
    assert Intrinsic(c) == PrefixLatency(planned.processors);
    if t >= RackStart(w, c) {
      ExecutesWhileItLasts(c, planned, t);
      if TailsKept(planned, p.channels) && !Lasts(planned, t) {
        NothingIsCut(p, w.signal, k, RackStart(w, c), t);
        ShapeSilence(p.channels, planned.editGain.At(t));
      }
      var length := t - RackStart(w, c) + 1 + PrefixLatency(planned.processors);
      SameScopeInput(w, p, k, length);
      SameAdvanced(c.rack.slots, Slots(planned.processors, 0), |c.rack.slots|, RackStart(w, c), ScopeInput(w, k, length), SilentAux(c.rack, s.channels, length));
    }
  }

  /** Contribution `k` lies in the range of a track exactly when it belongs to it. */
  lemma InRange<S(!new)>(s: Schedule<S>, p: Program<S>, n: nat, k: nat)
    requires Stands(s, p) && n < |p.strips| && k < |p.contributions| && p.strips[n].origin.Track?
    ensures s.NodeInPlace(n) && s.nodes[n].contributionEnd <= |p.contributions|
    ensures p.contributions[k].track == n <==> s.nodes[n].contributionStart <= k < s.nodes[n].contributionEnd
  {
    assert NodeRealized(s, n, p) && ContributionRealized(s.contributions[k], p.contributions[k]);
    assert s.NodeInPlace(n) && s.ContributionInPlace(k);
  }

  lemma {:induction false} SameContributions<S(!new)>(w: World<S>, p: Program<S>, n: nat, hi: nat, t: int)
    requires Stands(w.schedule, p) && n < |p.strips| && p.strips[n].origin.Track? && hi <= |p.contributions|
    ensures var node := w.schedule.nodes[n];
            var reached := if hi < node.contributionStart then node.contributionStart else if hi > node.contributionEnd then node.contributionEnd else hi;
            && node.contributionStart <= node.contributionEnd <= |w.schedule.contributions|
            && MixedContributions(p, w.signal, w.entry, n, hi, t) == IdealContributions(w, n, reached, t)
    decreases hi
  {
    hide IdealContribution, MixedContribution, Realizes, Acyclic;
    SameChannels(w.schedule, p);
    assert w.schedule.NodeInPlace(n);
    if hi > 0 {
      SameContributions(w, p, n, hi - 1, t);
      InRange(w.schedule, p, n, hi - 1);
      SameContribution(w, p, hi - 1, t);
    }
  }

  lemma RouteOf<S(!new)>(s: Schedule<S>, p: Program<S>, n: nat, i: nat)
    requires Stands(s, p) && n < |p.strips| && i < |RoutesInto(p.routes, n)|
    ensures s.NodeInPlace(n) && s.nodes[n].incomingEnd == s.nodes[n].incomingStart + |RoutesInto(p.routes, n)|
    ensures s.RouteInPlace(s.nodes[n].incomingStart + i)
    ensures s.routes[s.nodes[n].incomingStart + i].(compensation := 0) == Lowered(RoutesInto(p.routes, n)[i])
  {
    hide RoutesInto, RoutesRealized, Acyclic, RackRealized, Schedule.RackInPlace, ContributionRealized;
    assert NodeRealized(s, n, p) && s.NodeInPlace(n);
    var node := s.nodes[n];
    RealizedSlice(s.routes, node.incomingStart, node.incomingEnd, RoutesInto(p.routes, n), i);
    assert s.RouteInPlace(node.incomingStart + i);
  }

  lemma RealizedSlice(routes: seq<Route>, start: nat, end: nat, planned: seq<PlannedRoute>, i: nat)
    requires start <= end <= |routes| && RoutesRealized(routes[start..end], planned) && i < |planned|
    ensures end == start + |planned| && routes[start + i].(compensation := 0) == Lowered(planned[i])
  {
    assert routes[start..end][i] == routes[start + i];
  }

  lemma {:induction false} SameRoutes<S(!new)>(w: World<S>, p: Program<S>, n: nat, hi: nat, t: int)
    requires Stands(w.schedule, p) && n < |p.strips| && !p.strips[n].origin.Track? && hi <= |RoutesInto(p.routes, n)|
    requires w.schedule.nodes[n].origin == p.strips[n].origin && w.schedule.nodes[n].incomingStart + |RoutesInto(p.routes, n)| == w.schedule.nodes[n].incomingEnd
    ensures IdealRoutes(w, n, w.schedule.nodes[n].incomingStart + hi, t) == MixedRoutes(p, w.signal, w.entry, n, hi, t)
    decreases n, 0, hi
  {
    hide IdealPort, MixedPort, Realizes, RoutesInto;
    SameChannels(w.schedule, p);
    assert w.schedule.NodeInPlace(n);
    if hi > 0 {
      SameRoutes(w, p, n, hi - 1, t);
      RouteOf(w.schedule, p, n, hi - 1);
      IntoIsPlanned(p.routes, n, hi - 1);
      var route := RoutesInto(p.routes, n)[hi - 1];
      SamePort(w, p, route.source, route.port, t);
    }
  }

  lemma {:induction false} SameInput<S(!new)>(w: World<S>, p: Program<S>, n: nat, t: int)
    requires Stands(w.schedule, p) && n < |p.strips|
    ensures n < |w.schedule.nodes| && IdealInput(w, n, t) == MixedInput(p, w.signal, w.entry, n, t)
    decreases n, 1
  {
    hide IdealContributions, MixedContributions, IdealRoutes, MixedRoutes, RoutesInto, RackRealized;
    assert NodeRealized(w.schedule, n, p) && w.schedule.NodeInPlace(n);
    if p.strips[n].origin.Track? {
      SameContributions(w, p, n, |p.contributions|, t);
      AllInRange(w.schedule, p, n);
    } else {
      SameRoutes(w, p, n, |RoutesInto(p.routes, n)|, t);
    }
  }

  lemma AllInRange<S(!new)>(s: Schedule<S>, p: Program<S>, n: nat)
    requires Stands(s, p) && n < |p.strips|
    ensures |s.contributions| == |p.contributions| && s.NodeInPlace(n)
  {}

  /** The rack of a node carries the processors, buses and sidechains of the strip. */
  lemma RackOf<S(!new)>(s: Schedule<S>, p: Program<S>, n: nat, behind: bool)
    requires Stands(s, p) && n < |p.strips|
    ensures n < |s.nodes| && s.NodeInPlace(n) && RackRealized(s.nodes[n].RackAt(behind), p.strips[n].RackAt(behind), s.sidechainSources)
    ensures s.nodes[n].muted == p.strips[n].muted && s.nodes[n].trim == p.strips[n].trim && s.nodes[n].fader == p.strips[n].fader
    ensures SlotLatencies(s.nodes[n].RackAt(behind).slots) == PrefixLatency(p.strips[n].RackAt(behind))
  {
    hide RoutesInto;
    assert NodeRealized(s, n, p) && s.NodeInPlace(n);
    SameLatencies(s.nodes[n].RackAt(behind).slots, p.strips[n].RackAt(behind));
  }

  lemma {:induction false} SameLatencies<S>(slots: seq<Slot<S>>, rack: seq<PlannedProcessor<S>>)
    requires SameSlots(slots, rack)
    ensures SlotLatencies(slots) == PrefixLatency(rack)
    decreases |rack|
  {
    if |rack| > 0 {
      SameLatencies(slots[..|rack| - 1], rack[..|rack| - 1]);
    }
  }

  lemma {:induction false} SameSidechains<S(!new)>(w: World<S>, p: Program<S>, n: nat, behind: bool, j: nat, hi: nat, bus: nat, t: int)
    requires Stands(w.schedule, p) && n < |p.strips| && j < |p.strips[n].RackAt(behind)| && hi <= |p.strips[n].RackAt(behind)[j].sidechains|
    ensures n < |w.schedule.nodes| && j < |w.schedule.nodes[n].RackAt(behind).slots| == |w.schedule.nodes[n].RackAt(behind).bindings|
    ensures hi <= |w.schedule.nodes[n].RackAt(behind).bindings[j]| == |p.strips[n].RackAt(behind)[j].sidechains|
    ensures IdealBindings(w, n, behind, j, hi, bus, t) == MixedSidechains(p, w.signal, w.entry, n, behind, j, hi, bus, t)
    decreases n, 0, hi
  {
    hide IdealPort, MixedPort, IdealBindings, MixedSidechains, Realizes, PrefixLatency, SlotLatencies;
    var s := w.schedule;
    SameChannels(s, p);
    RackOf(s, p, n, behind);
    assert SidechainsRealized(s.nodes[n].RackAt(behind).bindings[j], p.strips[n].RackAt(behind)[j].sidechains, s.sidechainSources);
    IdealBindingsStep(w, n, behind, j, hi, bus, t);
    MixedSidechainsStep(p, w.signal, w.entry, n, behind, j, hi, bus, t);
    if hi > 0 {
      SameSidechains(w, p, n, behind, j, hi - 1, bus, t);
      assert LeadBefore(p.strips[n].RackAt(behind)[j].sidechains, n);
      var route := p.strips[n].RackAt(behind)[j].sidechains[hi - 1];
      SamePort(w, p, route.source, route.port, t);
    }
  }

  lemma MixedSidechainsStep<S(!new)>(p: Program<S>, signal: (nat, int) -> Frame, entry: int, n: nat, behind: bool, j: nat, hi: nat, bus: nat, t: int)
    requires Acyclic(p) && n < |p.strips| && j < |p.strips[n].RackAt(behind)| && hi <= |p.strips[n].RackAt(behind)[j].sidechains|
    ensures hi == 0 ==> MixedSidechains(p, signal, entry, n, behind, j, hi, bus, t) == Silence(p.channels)
    ensures hi > 0 ==>
              var before, route := MixedSidechains(p, signal, entry, n, behind, j, hi - 1, bus, t), p.strips[n].RackAt(behind)[j].sidechains[hi - 1];
              && route.source < n
              && MixedSidechains(p, signal, entry, n, behind, j, hi, bus, t)
                 == if route.bus != bus then before else Add(before, Scale(MixedPort(p, signal, entry, route.source, route.port, t), route.gain.At(t)))
  {
    hide MixedPort;
    assert LeadBefore(p.strips[n].RackAt(behind)[j].sidechains, n);
  }

  lemma {:induction false} SameAux<S(!new)>(w: World<S>, p: Program<S>, n: nat, behind: bool, j: nat, t: int)
    requires Stands(w.schedule, p) && n < |p.strips| && j < |p.strips[n].RackAt(behind)|
    ensures n < |w.schedule.nodes| && j < |w.schedule.nodes[n].RackAt(behind).slots|
    ensures IdealAux(w, n, behind, j, t) == MixedAux(p, w.signal, w.entry, n, behind, j, t)
    decreases n, 1
  {
    hide IdealBindings, MixedSidechains, Realizes, PrefixLatency, SlotLatencies;
    RackOf(w.schedule, p, n, behind);
    var planned := p.strips[n].RackAt(behind)[j];
    forall bus | 0 <= bus < planned.buses
      ensures IdealAux(w, n, behind, j, t)[bus] == MixedAux(p, w.signal, w.entry, n, behind, j, t)[bus]
    {
      SameSidechains(w, p, n, behind, j, |planned.sidechains|, bus, t);
    }
  }

  lemma {:induction false} SameAuxes<S(!new)>(w: World<S>, p: Program<S>, n: nat, behind: bool, length: nat)
    requires Stands(w.schedule, p) && n < |p.strips|
    ensures n < |w.schedule.nodes| && IdealAuxes(w, n, behind, length) == MixedAuxes(p, w.signal, w.entry, n, behind, length)
    decreases n, 2
  {
    hide IdealAux, MixedAux, Realizes, PrefixLatency, SlotLatencies, Acyclic;
    RackOf(w.schedule, p, n, behind);
    var ideal, mixed := IdealAuxes(w, n, behind, length), MixedAuxes(p, w.signal, w.entry, n, behind, length);
    forall j | 0 <= j < |mixed|
      ensures ideal[j] == mixed[j]
    {
      forall i | 0 <= i < length
        ensures ideal[j][i] == mixed[j][i]
      {
        SameAux(w, p, n, behind, j, w.entry + i);
      }
    }
  }

  lemma {:induction false} SameRackInput<S(!new)>(w: World<S>, p: Program<S>, n: nat, behind: bool, t: int)
    requires Stands(w.schedule, p) && n < |p.strips|
    ensures n < |w.schedule.nodes| && IdealRackInput(w, n, behind, t) == MixedRackInput(p, w.signal, w.entry, n, behind, t)
    decreases n, if behind then 6 else 2
  {
    hide IdealInput, MixedInput, IdealRackOutput, MixedRackOutput, Realizes, PrefixLatency, SlotLatencies, Acyclic;
    RackOf(w.schedule, p, n, behind);
    if behind {
      SameRackOutput(w, p, n, false, t);
    } else {
      SameInput(w, p, n, t);
    }
  }

  lemma {:induction false} SameMain<S(!new)>(w: World<S>, p: Program<S>, n: nat, behind: bool, length: nat)
    requires Stands(w.schedule, p) && n < |p.strips|
    ensures n < |w.schedule.nodes| && IdealMain(w, n, behind, length) == MixedMain(p, w.signal, w.entry, n, behind, length)
    decreases n, if behind then 7 else 3
  {
    hide IdealRackInput, MixedRackInput, Realizes, Acyclic;
    SameChannels(w.schedule, p);
    forall i | 0 <= i < length
      ensures IdealMain(w, n, behind, length)[i] == MixedMain(p, w.signal, w.entry, n, behind, length)[i]
    {
      SameRackInput(w, p, n, behind, w.entry + i);
    }
  }

  lemma {:induction false} SameRackOutput<S(!new)>(w: World<S>, p: Program<S>, n: nat, behind: bool, t: int)
    requires Stands(w.schedule, p) && n < |p.strips|
    ensures n < |w.schedule.nodes| && IdealRackOutput(w, n, behind, t) == MixedRackOutput(p, w.signal, w.entry, n, behind, t)
    decreases n, if behind then 8 else 4
  {
    hide IdealMain, MixedMain, IdealAuxes, MixedAuxes, Advanced, PrefixLatency, SlotLatencies, Realizes, Acyclic;
    SameChannels(w.schedule, p);
    RackOf(w.schedule, p, n, behind);
    if t >= w.entry {
      var slots, rack := w.schedule.nodes[n].RackAt(behind).slots, p.strips[n].RackAt(behind);
      var length := t - w.entry + 1 + PrefixLatency(rack);
      SameMain(w, p, n, behind, length);
      SameAuxes(w, p, n, behind, length);
      SameAdvanced(slots, Slots(rack, 0), |slots|, w.entry, IdealMain(w, n, behind, length), IdealAuxes(w, n, behind, length));
    }
  }

  /** Every port of the schedule is, without its delays, that port of the program. */
  lemma {:induction false} SamePort<S(!new)>(w: World<S>, p: Program<S>, n: nat, port: Port, t: int)
    requires Stands(w.schedule, p) && n < |p.strips|
    ensures n < |w.schedule.nodes| && IdealPort(w, n, port, t) == MixedPort(p, w.signal, w.entry, n, port, t)
    decreases n, 9
  {
    hide IdealRackOutput, MixedRackOutput, PrefixLatency, SlotLatencies, Realizes, Acyclic;
    SameChannels(w.schedule, p);
    RackOf(w.schedule, p, n, false);
    SameRackOutput(w, p, n, false, t);
    SameRackOutput(w, p, n, true, t);
  }

  /** Preparation keeps the meaning of the program: the prepared schedule without its delays is the program's mix. */
  lemma PreparationKeepsMeaning<S(!new)>(w: World<S>, p: Program<S>, t: int)
    requires Stands(w.schedule, p)
    ensures IdealPort(w, w.schedule.output, PostMute, t) == ProgramOutput(p, w.signal, w.entry, t)
  {
    hide IdealPort, MixedPort, Acyclic;
    SamePort(w, p, w.schedule.output, PostMute, t);
  }
}
