/** A plan without history gives every sample the same PCM wherever the block that
    contains it begins. */
module Historyless {
  import opened Frames
  import opened Graph
  import opened Processors
  import opened Schedule
  import opened Host
  import opened Alignment
  import opened Render

  ghost predicate Stateless<S(!new)>(slots: seq<Slot<S>>) {
    forall j :: 0 <= j < |slots| ==> !slots[j].processor.requiresStateEntry
  }

  /** The last frame alone, as each auxiliary input ends. */
  ghost function LastOf(aux: seq<seq<AuxFrame>>): (last: seq<seq<AuxFrame>>)
    requires forall j :: 0 <= j < |aux| ==> |aux[j]| > 0
    ensures |last| == |aux| && AuxLengths(last, 1)
  {
    seq(|aux|, j requires 0 <= j < |aux| => [aux[j][|aux[j]| - 1]])
  }

  /** Without declared state a processor gives its last input frame the same output on its own. */
  lemma RunLast<S(!new)>(p: Processor<S>, start: int, main: seq<Frame>, aux: seq<AuxFrame>)
    requires Streaming(p) && !p.requiresStateEntry
    requires |main| == |aux| > 0 && Run(p, start, main, aux).Some?
    ensures |Run(p, start, main, aux).value.1| == |main|
    ensures var n := |main| - 1;
            var alone := Run(p, start + n, [main[n]], [aux[n]]);
            alone.Some? && alone.value.1 == [Run(p, start, main, aux).value.1[n]]
  {
    var n := |main| - 1;
    assert main == main[..n] + [main[n]] && aux == aux[..n] + [aux[n]];
    assert SplitsAt(p, p.created, start, main[..n], [main[n]], aux[..n], [aux[n]]);
    var head := p.process(p.created, start, main[..n], aux[..n]);
    assert KeepsLength(p, p.created, start, main[..n], aux[..n]);
    assert KeepsLength(p, p.created, start, main, aux);
    assert ForgetsState(p, head.value.0, p.created, start + n, [main[n]], [aux[n]]);
    assert KeepsLength(p, p.created, start + n, [main[n]], [aux[n]]);
  }

  /** So does a rack of them. */
  lemma {:induction false} StageLast<S(!new)>(slots: seq<Slot<S>>, k: nat, start: int, main: seq<Frame>, aux: seq<seq<AuxFrame>>)
    requires StreamingRack(slots) && Stateless(slots) && k <= |slots| == |aux|
    requires |main| > 0 && AuxLengths(aux, |main|)
    requires Stage(slots, k, start, main, aux).Some?
    ensures |Stage(slots, k, start, main, aux).value| == |main|
    ensures Stage(slots, k, start + |main| - 1, [main[|main| - 1]], LastOf(aux)) == Some([Stage(slots, k, start, main, aux).value[|main| - 1]])
    decreases k
  {
    if k > 0 {
      StageLast(slots, k - 1, start, main, aux);
      var before := Stage(slots, k - 1, start, main, aux).value;
      RunLast(slots[k - 1].processor, start - slots[k - 1].inputDelay, before, aux[k - 1]);
    }
  }

  // ------------------------------------------------------------------ runs that succeeded

  ghost predicate RackSucceeds<S(!new)>(w: World<S>, n: nat, post: bool, length: nat)
    requires w.schedule.WellFormed() && n < |w.schedule.nodes|
  {
    var slots := w.schedule.nodes[n].RackAt(post).slots;
    Stage(slots, |slots|, w.entry, RackInput(w, n, post, length), AuxHistory(w, n, post, length)).Some?
  }

  ghost predicate ScopeSucceeds<S(!new)>(w: World<S>, k: nat, length: nat)
    requires w.schedule.WellFormed() && k < |w.schedule.contributions|
  {
    var c := w.schedule.contributions[k];
    assert w.schedule.ContributionInPlace(k);
    Stage(c.rack.slots, |c.rack.slots|, RackStart(w, c), ScopeInput(w, k, length), SilentAux(c.rack, w.schedule.channels, length)).Some?
  }

  /** No processor failed on the way to execution sample `e`. */
  ghost predicate Succeeds<S(!new)>(w: World<S>, e: int)
    requires w.schedule.WellFormed()
  {
    && e >= w.entry
    && (forall n :: 0 <= n < |w.schedule.nodes| ==> NodeSucceeds(w, n, e))
    && (forall k :: 0 <= k < |w.schedule.contributions| ==> ContributionSucceeds(w, k, e))
  }

  ghost predicate NodeSucceeds<S(!new)>(w: World<S>, n: nat, e: int)
    requires w.schedule.WellFormed() && n < |w.schedule.nodes| && e >= w.entry
  {
    RackSucceeds(w, n, false, e + 1 - w.entry) && RackSucceeds(w, n, true, e + 1 - w.entry)
  }

  ghost predicate ContributionSucceeds<S(!new)>(w: World<S>, k: nat, e: int)
    requires w.schedule.WellFormed() && k < |w.schedule.contributions| && e >= w.entry
  {
    var c := w.schedule.contributions[k];
    Executes(c, e) ==> ScopeSucceeds(w, k, e + 1 - RackStart(w, c))
  }

  /** The same plan entered only at the sample itself. */
  ghost function EnteredAt<S(!new)>(w: World<S>, e: int): World<S> { w.(entry := e) }

  lemma ContributionAlone<S(!new)>(w: World<S>, k: nat, e: int)
    requires w.schedule.WellFormed() && w.schedule.Historyless() && k < |w.schedule.contributions| && Succeeds(w, e)
    ensures ContributionAt(w, k, e) == ContributionAt(EnteredAt(w, e), k, e)
  {
    hide SourceAt, Stage, ScopeInput, SilentAux, StreamingRack;
    var c := w.schedule.contributions[k];
    var v := EnteredAt(w, e);
    assert w.schedule.ContributionInPlace(k);
    if Executes(c, e) {
      var length := e + 1 - RackStart(w, c);
      assert ContributionSucceeds(w, k, e) && w.schedule.StatelessRack(c.rack);
      var input, aux := ScopeInput(w, k, length), SilentAux(c.rack, w.schedule.channels, length);
      StageLast(c.rack.slots, |c.rack.slots|, RackStart(w, c), input, aux);
      assert RackStart(v, c) == e;
      ScopeInputLast(w, k, e);
      SilentLast(c.rack, w.schedule.channels, length);
    }
  }

  lemma ScopeInputLast<S(!new)>(w: World<S>, k: nat, e: int)
    requires w.schedule.WellFormed() && k < |w.schedule.contributions| && e >= w.entry && e >= w.schedule.contributions[k].start
    ensures var length := e + 1 - RackStart(w, w.schedule.contributions[k]);
            ScopeInput(EnteredAt(w, e), k, 1) == [ScopeInput(w, k, length)[length - 1]]
  {
    var c := w.schedule.contributions[k];
    var length := e + 1 - RackStart(w, c);
    SameSource(w, k, e);
    hide SourceAt;
    var gain := c.scopeGain.At(e - c.sourceLatency);
    assert ScopeInput(w, k, length)[length - 1] == Scale(SourceAt(w, k, e), gain);
    var v := EnteredAt(w, e);
    assert v.schedule.contributions[k] == c && RackStart(v, c) == e;
    assert ScopeInput(v, k, 1)[0] == Scale(SourceAt(v, k, RackStart(v, c) + 0), c.scopeGain.At(RackStart(v, c) + 0 - c.sourceLatency));
    assert ScopeInput(v, k, 1)[0] == Scale(SourceAt(v, k, e), gain);
  }

  /** Sources are read by position, whenever the epoch was entered. */
  lemma SameSource<S(!new)>(w: World<S>, k: nat, e: int)
    requires w.schedule.WellFormed() && k < |w.schedule.contributions|
    ensures SourceAt(w, k, e) == SourceAt(EnteredAt(w, e), k, e)
  {
    assert w.schedule.ContributionInPlace(k);
  }

  lemma SilentLast<S(!new)>(rack: Rack<S>, channels: nat, length: nat)
    requires |rack.buses| == |rack.slots| && length > 0
    ensures LastOf(SilentAux(rack, channels, length)) == SilentAux(rack, channels, 1)
  {
    var last, one := LastOf(SilentAux(rack, channels, length)), SilentAux(rack, channels, 1);
    forall j | 0 <= j < |last|
      ensures last[j] == one[j]
    {}
  }

  lemma {:induction false} ContributionsAlone<S(!new)>(w: World<S>, n: nat, hi: nat, e: int)
    requires w.schedule.WellFormed() && w.schedule.Historyless() && n < |w.schedule.nodes| && Succeeds(w, e)
    requires w.schedule.nodes[n].contributionStart <= hi <= w.schedule.nodes[n].contributionEnd
    ensures SumContributions(w, n, hi, e) == SumContributions(EnteredAt(w, e), n, hi, e)
    decreases hi
  {
    hide ContributionAt, Succeeds;
    assert w.schedule.NodeInPlace(n);
    if hi > w.schedule.nodes[n].contributionStart {
      ContributionsAlone(w, n, hi - 1, e);
      ContributionAlone(w, hi - 1, e);
    }
  }

  lemma {:induction false} RoutesAlone<S(!new)>(w: World<S>, n: nat, hi: nat, e: int)
    requires w.schedule.WellFormed() && w.schedule.Historyless() && n < |w.schedule.nodes| && Succeeds(w, e)
    requires !w.schedule.nodes[n].origin.Track?
    requires w.schedule.nodes[n].incomingStart <= hi <= w.schedule.nodes[n].incomingEnd
    ensures SumRoutes(w, n, hi, e) == SumRoutes(EnteredAt(w, e), n, hi, e)
    decreases n, 0, hi
  {
    hide PortAt, Succeeds, Schedule.Historyless;
    assert w.schedule.NodeInPlace(n);
    if hi > w.schedule.nodes[n].incomingStart {
      RoutesAlone(w, n, hi - 1, e);
      RouteIsDirect(w.schedule, hi - 1);
      PortAlone(w, w.schedule.routes[hi - 1].source, w.schedule.routes[hi - 1].port, e);
    }
  }

  lemma RouteIsDirect<S(!new)>(s: Schedule<S>, r: nat)
    requires s.WellFormed() && s.Historyless() && r < |s.routes|
    ensures s.RouteInPlace(r) && s.routes[r].compensation == 0
  {}

  lemma {:induction false} BindingsAlone<S(!new)>(w: World<S>, n: nat, post: bool, j: nat, hi: nat, bus: nat, e: int)
    requires w.schedule.WellFormed() && w.schedule.Historyless() && n < |w.schedule.nodes| && Succeeds(w, e)
    requires j < |w.schedule.nodes[n].RackAt(post).slots| == |w.schedule.nodes[n].RackAt(post).bindings|
    requires hi <= |w.schedule.nodes[n].RackAt(post).bindings[j]|
    ensures SumBindings(w, n, post, j, hi, bus, e) == SumBindings(EnteredAt(w, e), n, post, j, hi, bus, e)
    decreases n, 0, hi
  {
    hide PortAt, Succeeds;
    assert w.schedule.NodeInPlace(n);
    if hi > 0 {
      BindingsAlone(w, n, post, j, hi - 1, bus, e);
      var rack := w.schedule.nodes[n].RackAt(post);
      var binding := rack.bindings[j][hi - 1];
      assert w.schedule.BindingInPlace(n, binding, rack.buses[j]);
      assert w.schedule.StatelessRack(rack);
      var source := w.schedule.sidechainSources[binding.sourceBuffer];
      PortAlone(w, source.node, source.port, e);
    }
  }

  lemma {:induction false} AuxAlone<S(!new)>(w: World<S>, n: nat, post: bool, e: int)
    requires w.schedule.WellFormed() && w.schedule.Historyless() && n < |w.schedule.nodes| && Succeeds(w, e)
    ensures LastOf(AuxHistory(w, n, post, e + 1 - w.entry)) == AuxHistory(EnteredAt(w, e), n, post, 1)
    decreases n, 1
  {
    hide SumBindings, Succeeds;
    assert e >= w.entry by { SucceedsLater(w, e); }
    assert w.schedule.NodeInPlace(n);
    var v := EnteredAt(w, e);
    var rack := w.schedule.nodes[n].RackAt(post);
    var last, one := LastOf(AuxHistory(w, n, post, e + 1 - w.entry)), AuxHistory(v, n, post, 1);
    forall j | 0 <= j < |last|
      ensures last[j] == one[j]
    {
      forall bus | 0 <= bus < rack.buses[j]
        ensures AuxAt(w, n, post, j, e)[bus] == AuxAt(v, n, post, j, e)[bus]
      {
        BindingsAlone(w, n, post, j, |rack.bindings[j]|, bus, e);
      }
      assert AuxAt(w, n, post, j, e) == AuxAt(v, n, post, j, e);
    }
  }

  lemma SucceedsLater<S(!new)>(w: World<S>, e: int)
    requires w.schedule.WellFormed() && Succeeds(w, e)
    ensures e >= w.entry
    ensures forall n :: 0 <= n < |w.schedule.nodes| ==> NodeSucceeds(w, n, e)
  {}

  lemma {:induction false} RackAlone<S(!new)>(w: World<S>, n: nat, post: bool, e: int)
    requires w.schedule.WellFormed() && w.schedule.Historyless() && n < |w.schedule.nodes| && Succeeds(w, e)
    ensures RackOutputAt(w, n, post, e) == RackOutputAt(EnteredAt(w, e), n, post, e)
    decreases n, if post then 4 else 2
  {
    hide Succeeds, AuxHistory, InputAt, Stage, StreamingRack;
    SucceedsLater(w, e);
    var v := EnteredAt(w, e);
    var length := e + 1 - w.entry;
    var slots := w.schedule.nodes[n].RackAt(post).slots;
    assert w.schedule.NodeInPlace(n) && w.schedule.StatelessRack(w.schedule.nodes[n].RackAt(post));
    InputAlone(w, n, post, e);
    AuxAlone(w, n, post, e);
    var input := RackInput(w, n, post, length);
    assert [input[length - 1]] == RackInput(v, n, post, 1);
    assert NodeSucceeds(w, n, e);
    StageLast(slots, |slots|, w.entry, input, AuxHistory(w, n, post, length));
  }

  lemma {:induction false} InputAlone<S(!new)>(w: World<S>, n: nat, post: bool, e: int)
    requires w.schedule.WellFormed() && w.schedule.Historyless() && n < |w.schedule.nodes| && Succeeds(w, e)
    ensures RackInputAt(w, n, post, e) == RackInputAt(EnteredAt(w, e), n, post, e)
    decreases n, if post then 3 else 1
  {
    hide Succeeds, SumContributions, SumRoutes, RackOutputAt;
    assert w.schedule.NodeInPlace(n);
    if post {
      RackAlone(w, n, false, e);
    } else if w.schedule.nodes[n].origin.Track? {
      ContributionsAlone(w, n, w.schedule.nodes[n].contributionEnd, e);
    } else {
      RoutesAlone(w, n, w.schedule.nodes[n].incomingEnd, e);
    }
  }

  /** Every port carries at `e` what it would carry if the block had begun there. */
  lemma {:induction false} PortAlone<S(!new)>(w: World<S>, n: nat, port: Port, e: int)
    requires w.schedule.WellFormed() && w.schedule.Historyless() && n < |w.schedule.nodes| && Succeeds(w, e)
    ensures PortAt(w, n, port, e) == PortAt(EnteredAt(w, e), n, port, e)
    decreases n, 5
  {
    hide Succeeds, RackOutputAt;
    RackAlone(w, n, false, e);
    RackAlone(w, n, true, e);
  }

  /** The public output of a plan without history at one sample, on its own. */
  ghost function InstantAt<S(!new)>(s: Schedule<S>, signal: (nat, int) -> Frame, p: int): Frame
    requires s.WellFormed()
  {
    PublicAt(World(s, signal, p), p)
  }

  // ------------------------------------------------------------------ rendered without failure means it succeeded

  lemma ReadySucceeds<S(!new)>(slots: seq<Slot<S>>, instances: seq<Hosted<S>>, start: int, main: seq<Frame>, aux: seq<seq<AuxFrame>>)
    requires RackReady(slots, instances, start, main, aux) && |main| > 0
    requires forall j :: 0 <= j < |instances| ==> !instances[j].continuity.Failed?
    ensures Stage(slots, |slots|, start, main, aux).Some?
  {
    if |slots| > 0 {
      assert Ready(slots, |slots| - 1, instances[|slots| - 1], start, main, aux);
    }
  }

  lemma AlignedRackSucceeds<S(!new)>(w: World<S>, n: nat, post: bool, state: RackState<S>, end: int, e: int)
    requires w.schedule.WellFormed() && n < |w.schedule.nodes|
    requires RackAligned(w, n, post, state, end) && NoneFailed(state) && w.entry <= e < end
    ensures RackSucceeds(w, n, post, e + 1 - w.entry)
  {
    hide RackInputAt, AuxAt, Stage, StreamingRack, Ready, LaneSetAligned;
    assert w.schedule.NodeInPlace(n);
    var slots := w.schedule.nodes[n].RackAt(post).slots;
    var input, aux := RackInput(w, n, post, end - w.entry), AuxHistory(w, n, post, end - w.entry);
    ReadySucceeds(slots, state.instances, w.entry, input, aux);
    StageAt(slots, w.entry, input, aux, e + 1 - w.entry);
    HistoryPrefix(w, n, post, end - w.entry, e + 1 - w.entry);
    assert input[..e + 1 - w.entry] == RackInput(w, n, post, e + 1 - w.entry);
  }

  lemma AlignedScopeSucceeds<S(!new)>(w: World<S>, k: nat, line: seq<Frame>, state: RackState<S>, end: int, e: int)
    requires w.schedule.WellFormed() && k < |w.schedule.contributions|
    requires ContributionAligned(w, k, line, state, end) && NoneFailed(state) && w.entry <= e < end
    requires Executes(w.schedule.contributions[k], e)
    ensures ScopeSucceeds(w, k, e + 1 - RackStart(w, w.schedule.contributions[k]))
  {
    hide SourceAt, Stage, StreamingRack, Ready;
    assert w.schedule.ContributionInPlace(k);
    var c := w.schedule.contributions[k];
    var length, part := ScopeLength(w, c, end), e + 1 - RackStart(w, c);
    var input, aux := ScopeInput(w, k, length), SilentAux(c.rack, w.schedule.channels, length);
    ReadySucceeds(c.rack.slots, state.instances, RackStart(w, c), input, aux);
    StageAt(c.rack.slots, RackStart(w, c), input, aux, part);
    SilentPrefix(c.rack, w.schedule.channels, length, part);
    assert input[..part] == ScopeInput(w, k, part);
  }

  lemma AlignedSucceeds<S(!new)>(w: World<S>, h: History<S>, end: int, e: int)
    requires w.schedule.WellFormed() && Shaped(w.schedule, h)
    requires AllAligned(w, h, 0, |w.schedule.nodes|, end) && NoInstanceFailed(h) && w.entry <= e < end
    ensures Succeeds(w, e)
  {
    hide RackAligned, ContributionAligned, RackSucceeds, ScopeSucceeds, NoneFailed, RoutesAligned;
    forall n | 0 <= n < |w.schedule.nodes|
      ensures NodeSucceeds(w, n, e)
    {
      assert NodeAligned(w, h, n, end);
      AlignedRackSucceeds(w, n, false, h.preRacks[n], end, e);
      AlignedRackSucceeds(w, n, true, h.postRacks[n], end, e);
    }
    forall k | 0 <= k < |w.schedule.contributions|
      ensures ContributionSucceeds(w, k, e)
    {
      assert w.schedule.ContributionInPlace(k);
      assert NodeAligned(w, h, w.schedule.contributions[k].track, end);
      if Executes(w.schedule.contributions[k], e) {
        AlignedScopeSucceeds(w, k, h.contributions[k], h.scopes[k], end, e);
      }
    }
  }

  /** A block of a plan without history delivers every sample as if rendered on its own. */
  lemma BlockIsInstant<S(!new)>(w: World<S>, h: History<S>, end: int, p: int)
    requires w.schedule.WellFormed() && Shaped(w.schedule, h) && w.schedule.Historyless()
    requires AllAligned(w, h, 0, |w.schedule.nodes|, end) && NoInstanceFailed(h) && w.entry <= p < end
    ensures PublicAt(w, p) == InstantAt(w.schedule, w.signal, p)
  {
    hide PortAt, Succeeds, AllAligned, NoInstanceFailed, Shaped;
    AlignedSucceeds(w, h, end, p);
    PortAlone(w, w.schedule.output, PostMute, p);
  }
}
