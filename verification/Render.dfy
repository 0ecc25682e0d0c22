/** Rendering one internal block: contributions, routes and channel strips. */
module Render {
  import opened Frames
  import opened Graph
  import opened Processors
  import opened SourceFrames
  import opened Schedule
  import opened Host
  import opened Alignment
  import Delay

  /** The pull-style source Adapter: contribution and demanded source frames to mixed PCM, or a failure. */
  type SourceRead = (nat, seq<int>) -> Option<seq<Frame>>

  /** A successful read delivers the signal, with silence at negative positions. */
  ghost predicate ReadAgrees(read: SourceRead, signal: (nat, int) -> Frame, channels: nat, k: nat, demand: seq<int>) {
    read(k, demand).Some? ==>
      && |read(k, demand).value| == |demand|
      && forall i :: 0 <= i < |demand| ==> read(k, demand).value[i] == if demand[i] < 0 then Silence(channels) else signal(k, demand[i])
  }

  ghost predicate SourceAgrees(read: SourceRead, signal: (nat, int) -> Frame, channels: nat) {
    forall k: nat, demand: seq<int> :: ReadAgrees(read, signal, channels, k, demand)
  }

  ghost predicate Delivers(read: SourceRead, k: nat, demand: seq<int>) {
    read(k, demand).Some?
  }

  /** No read ever fails. */
  ghost predicate Reliable(read: SourceRead) {
    forall k: nat, demand: seq<int> :: Delivers(read, k, demand)
  }

  /** No processor of the plan ever fails. */
  ghost predicate PlanRuns<S(!new)>(s: Schedule<S>) {
    && (forall n :: 0 <= n < |s.nodes| ==> RackRuns(s.nodes[n].preRack.slots) && RackRuns(s.nodes[n].postRack.slots))
    && (forall k :: 0 <= k < |s.contributions| ==> RackRuns(s.contributions[k].rack.slots))
  }

  /** The source PCM of one contribution over one block. */
  method ReadContribution<S(!new)>(s: Schedule<S>, k: nat, e: int, frames: nat, read: SourceRead, ghost w: World<S>)
    returns (status: Status, pcm: seq<Frame>)
    requires w.schedule == s && s.WellFormed() && k < |s.contributions|
    requires SourceAgrees(read, w.signal, s.channels)
    ensures status.Done? || (status.SourceUnavailable? && !Reliable(read))
    ensures e + frames <= s.contributions[k].start || e >= s.contributions[k].end ==> status.Done?
    ensures status.Done? ==> |pcm| == frames && forall i :: 0 <= i < frames ==> pcm[i] == SourceAt(w, k, e + i)
  {
    var c := s.contributions[k];
    assert s.ContributionInPlace(k);
    var demand := new int[frames](_ => -1);
    var active := PrepareSourceFrames(c.timeMap, s.rate, c.start, c.end, e, demand);
    if !active {
      return Done, seq(frames, _ => Silence(s.channels));
    }
    assert ReadAgrees(read, w.signal, s.channels, k, demand[..]);
    var source := read(k, demand[..]);
    if source.None? {
      assert !Delivers(read, k, demand[..]);
      return SourceUnavailable, [];
    }
    return Done, source.value;
  }

  /** The executing part of one block of a contribution: scope gain, scope rack, edit gain. */
  method RunScope<S(!new)>(s: Schedule<S>, k: nat, e: int, frames: nat, first: nat, count: nat, pcm: seq<Frame>,
                           before: RackState<S>, ghost w: World<S>)
    returns (status: Status, shaped: seq<Frame>, after: RackState<S>)
    requires w.schedule == s && s.WellFormed() && k < |s.contributions| && e >= w.entry
    requires ContributionExecutionFrames(s.contributions[k], e, frames) == Some((first, count))
    requires |pcm| == frames && forall i :: 0 <= i < frames ==> pcm[i] == SourceAt(w, k, e + i)
    requires ScopeAligned(w, k, before, ScopeLength(w, s.contributions[k], e))
    ensures status.Done? || status.ProcessorFailed? || status.PoisonedInstance?
    ensures SameShape(s.contributions[k].rack, before, after)
    ensures status.PoisonedInstance? ==> !NoneFailed(before)
    ensures Moves(s.contributions[k].rack.slots, status, before, after)
    ensures status.ProcessorFailed? ==> Culprit(s.contributions[k].rack.slots, after)
    ensures status.Done? ==>
              && shaped == ContributionWindow(w, k, e, frames)
              && ScopeAligned(w, k, after, ScopeLength(w, s.contributions[k], e + frames))
              && NoneFailed(after)
  {
    hide SourceAt, RackReady, Stage, RackAux, ContributionAt, ScopeInput, SilentAux, RunContinues, LanesAdvanced, Moves, Culprit, SameShape, NoneFailed, Executes, ScopeAligned, AllLanesFit, StreamingRack,
         ScopeGained, ExtentShaped;
    var c := s.contributions[k];
    assert s.ContributionInPlace(k);
    ghost var begin, length := RackStart(w, c), ScopeLength(w, c, e);
    ghost var main, aux := ScopeInput(w, k, length), SilentAux(c.rack, s.channels, length);
    ExecutionTiles(w, c, e, frames);
    var block := ScopeGained(c, pcm, first, count, e);
    ScopeBegins(w, k, e, frames, first, count, pcm, before);
    var out;
    status, out, after := ProcessRack(c.rack, before, e + first, block, [], s.channels, begin, main, aux);
    shaped := pcm;
    if status.Done? {
      ScopeBehind(w, k, e, frames, first, count, block, before, after, out, length, main, aux, RackAux(c.rack, before.lanes, [], s.channels, e + first, count));
      ShapedIsWindow(w, k, e, frames, first, count, pcm, out);
      shaped := ExtentShaped(c, pcm, out, first, e);
    }
  }

  /** The executing part of a block under the scope gain of its samples. */
  function ScopeGained<S>(c: Contribution<S>, pcm: seq<Frame>, first: nat, count: nat, e: int): (block: seq<Frame>)
    requires first + count <= |pcm|
    ensures |block| == count
  {
    seq(count, i requires 0 <= i < count => Scale(pcm[first + i], c.scopeGain.At(e + first + i - c.sourceLatency)))
  }

  /** The block with the output of the scope rack in its place, under the edit gain of its samples. */
  function ExtentShaped<S>(c: Contribution<S>, pcm: seq<Frame>, out: seq<Frame>, first: nat, e: int): (shaped: seq<Frame>)
    ensures |shaped| == |pcm|
  {
    seq(|pcm|, i requires 0 <= i < |pcm| =>
      if first <= i < first + |out| then Shape(out[i - first], c.editGain.At(e + i - c.sourceLatency - c.rackLatency)) else pcm[i])
  }

  /** Before the block the scope rack stands at the first executing sample, and its auxiliary buses are silent. */
  lemma ScopeBegins<S(!new)>(w: World<S>, k: nat, e: int, frames: nat, first: nat, count: nat, pcm: seq<Frame>, before: RackState<S>)
    requires w.schedule.WellFormed() && k < |w.schedule.contributions| && e >= w.entry
    requires ContributionExecutionFrames(w.schedule.contributions[k], e, frames) == Some((first, count))
    requires |pcm| == frames && forall i :: 0 <= i < frames ==> pcm[i] == SourceAt(w, k, e + i)
    requires ScopeAligned(w, k, before, ScopeLength(w, w.schedule.contributions[k], e))
    ensures var rack, length := w.schedule.contributions[k].rack, ScopeLength(w, w.schedule.contributions[k], e);
            && StreamingRack(rack.slots) && e + first == RackStart(w, w.schedule.contributions[k]) + length
            && AllLanesFit(rack, before.lanes, [], count)
            && RackReady(rack.slots, before.instances, RackStart(w, w.schedule.contributions[k]), ScopeInput(w, k, length), SilentAux(rack, w.schedule.channels, length))
            && ScopeInput(w, k, length) + ScopeGained(w.schedule.contributions[k], pcm, first, count, e) == ScopeInput(w, k, length + count)
            && Joined(SilentAux(rack, w.schedule.channels, length), RackAux(rack, before.lanes, [], w.schedule.channels, e + first, count))
               == SilentAux(rack, w.schedule.channels, length + count)
  {
    hide SourceAt, RackReady, RackAux, ScopeInput, SilentAux, Executes;
    var c := w.schedule.contributions[k];
    assert w.schedule.ContributionInPlace(k);
    ExecutionTiles(w, c, e, frames);
    ScopeInputContinues(w, k, e, frames, first, count, pcm);
    UnboundFits(c.rack, before.lanes, count);
    UnboundAuxIsSilent(c.rack, before.lanes, [], w.schedule.channels, e + first, ScopeLength(w, c, e), count);
  }

  /** Behind the block the scope rack is aligned again, and its output is the end of the whole run. */
  lemma ScopeBehind<S(!new)>(w: World<S>, k: nat, e: int, frames: nat, first: nat, count: nat, block: seq<Frame>,
                             before: RackState<S>, after: RackState<S>, out: seq<Frame>,
                             length: nat, main: seq<Frame>, aux: seq<seq<AuxFrame>>, auxBlock: seq<seq<AuxFrame>>)
    requires w.schedule.WellFormed() && k < |w.schedule.contributions| && e >= w.entry && w.schedule.ContributionInPlace(k)
    requires ContributionExecutionFrames(w.schedule.contributions[k], e, frames) == Some((first, count)) && |block| == count
    requires ScopeAligned(w, k, before, ScopeLength(w, w.schedule.contributions[k], e))
    requires length == ScopeLength(w, w.schedule.contributions[k], e) && |aux| == |auxBlock| == |w.schedule.contributions[k].rack.slots|
    requires main + block == ScopeInput(w, k, length + count)
    requires Joined(aux, auxBlock) == SilentAux(w.schedule.contributions[k].rack, w.schedule.channels, length + count)
    requires AuxLengths(aux, |main|) && AuxLengths(auxBlock, |block|) && |main| == length
    requires RunContinues(w.schedule.contributions[k].rack, RackStart(w, w.schedule.contributions[k]), main, aux, block, auxBlock, out)
    requires SameShape(w.schedule.contributions[k].rack, before, after)
    requires RackReady(w.schedule.contributions[k].rack.slots, after.instances, RackStart(w, w.schedule.contributions[k]), main + block, Joined(aux, auxBlock))
    requires AllLanesFit(w.schedule.contributions[k].rack, before.lanes, [], count)
    requires LanesAdvanced(w.schedule.contributions[k].rack, before.lanes, after.lanes, [], count)
    ensures var c := w.schedule.contributions[k];
            var run := Stage(c.rack.slots, |c.rack.slots|, RackStart(w, c), ScopeInput(w, k, length + count), SilentAux(c.rack, w.schedule.channels, length + count));
            && |out| == count && run.Some? && |run.value| == length + count && run.value[length..] == out
            && ScopeAligned(w, k, after, ScopeLength(w, c, e + frames))
  {
    hide RackReady, Stage, RackAux, ScopeInput, SilentAux;
    ExecutionTiles(w, w.schedule.contributions[k], e, frames);
    var c := w.schedule.contributions[k];
    forall j | 0 <= j < |after.lanes|
      ensures after.lanes[j] == []
    {
      assert LaneAdvanced(c.rack.bindings[j], before.lanes[j], after.lanes[j], [], count);
      assert before.lanes[j] == [];
    }
  }

  /** The scope input of a block continues that of the epoch. */
  lemma ScopeInputContinues<S(!new)>(w: World<S>, k: nat, e: int, frames: nat, first: nat, count: nat, pcm: seq<Frame>)
    requires w.schedule.WellFormed() && k < |w.schedule.contributions| && e >= w.entry
    requires ContributionExecutionFrames(w.schedule.contributions[k], e, frames) == Some((first, count))
    requires |pcm| == frames && forall i :: 0 <= i < frames ==> pcm[i] == SourceAt(w, k, e + i)
    ensures var length := ScopeLength(w, w.schedule.contributions[k], e);
            ScopeInput(w, k, length) + ScopeGained(w.schedule.contributions[k], pcm, first, count, e) == ScopeInput(w, k, length + count)
  {
    hide SourceAt;
    ExecutionTiles(w, w.schedule.contributions[k], e, frames);
  }

  lemma UnboundFits<S>(rack: Rack<S>, lanes: seq<seq<seq<Frame>>>, frames: nat)
    requires |rack.bindings| == |rack.buses| == |rack.slots| == |lanes|
    requires forall j :: 0 <= j < |rack.bindings| ==> rack.bindings[j] == [] && lanes[j] == []
    ensures AllLanesFit(rack, lanes, [], frames)
  {
    forall j | 0 <= j < |lanes|
      ensures LanesFit(rack.bindings[j], lanes[j], [], frames)
    {
      assert rack.bindings[j] == [] && lanes[j] == [];
    }
  }

  /** Inside its extent the shaped block is the run of the scope rack, outside it is silent. */
  lemma ShapedIsWindow<S(!new)>(w: World<S>, k: nat, e: int, frames: nat, first: nat, count: nat, pcm: seq<Frame>, out: seq<Frame>)
    requires w.schedule.WellFormed() && k < |w.schedule.contributions| && e >= w.entry
    requires w.schedule.ContributionInPlace(k)
    requires ContributionExecutionFrames(w.schedule.contributions[k], e, frames) == Some((first, count))
    requires |pcm| == frames && |out| == count
    requires forall i :: 0 <= i < frames ==> pcm[i] == SourceAt(w, k, e + i)
    requires var c := w.schedule.contributions[k];
             var length := ScopeLength(w, c, e);
             var run := Stage(c.rack.slots, |c.rack.slots|, RackStart(w, c), ScopeInput(w, k, length + count), SilentAux(c.rack, w.schedule.channels, length + count));
             run.Some? && |run.value| == length + count && run.value[length..] == out
    ensures ExtentShaped(w.schedule.contributions[k], pcm, out, first, e) == ContributionWindow(w, k, e, frames)
  {
    hide Stage, ScopeInput, SilentAux;
    var c := w.schedule.contributions[k];
    var length, shaped := ScopeLength(w, c, e), ExtentShaped(c, pcm, out, first, e);
    ExecutionTiles(w, c, e, frames);
    forall i | 0 <= i < frames
      ensures shaped[i] == ContributionAt(w, k, e + i)
    {
      if first <= i < first + count {
        ScopeRunIsStream(w, k, length + count, length + i - first);
      } else {
        assert !Executes(c, e + i);
      }
    }
  }

  /** Render one contribution of a track into its compensation line. */
  method RenderContribution<S(!new)>(s: Schedule<S>, k: nat, e: int, frames: nat, read: SourceRead,
                                     line: seq<Frame>, before: RackState<S>, ghost w: World<S>)
    returns (status: Status, added: seq<Frame>, lineAfter: seq<Frame>, after: RackState<S>)
    requires w.schedule == s && s.WellFormed() && k < |s.contributions|
    requires SourceAgrees(read, w.signal, s.channels)
    requires ContributionAligned(w, k, line, before, e)
    ensures status.Done? || status.SourceUnavailable? || status.ProcessorFailed? || status.PoisonedInstance?
    ensures SameShape(s.contributions[k].rack, before, after) && |lineAfter| == |line|
    ensures status.PoisonedInstance? ==> !NoneFailed(before)
    ensures Moves(s.contributions[k].rack.slots, status, before, after)
    ensures status.ProcessorFailed? ==> Culprit(s.contributions[k].rack.slots, after)
    ensures status.SourceUnavailable? ==> !Reliable(read)
    ensures !status.Done? ==> lineAfter == line && added == []
    ensures status.Done? ==>
              && added == ContributionWindow(w, k, e - s.contributions[k].compensation, frames)
              && ContributionAligned(w, k, lineAfter, after, e + frames)
              && (NoneFailed(before) ==> NoneFailed(after))
  {
    hide RackReady, ContributionAt, Reliable, Culprit;
    var c := s.contributions[k];
    assert s.ContributionInPlace(k);
    KeepsShape(w, k, before, ScopeLength(w, c, e));
    added, lineAfter, after := [], line, before;
    var extent := ContributionExecutionFrames(c, e, frames);
    ExecutionTiles(w, c, e, frames);
    var block;
    if extent.None? {
      status, block := Done, seq(frames, _ => Silence(s.channels));
      SilentWindow(w, k, e, frames);
    } else {
      var pcm;
      status, pcm := ReadContribution(s, k, e, frames, read, w);
      if !status.Done? {
        return;
      }
      status, block, after := RunScope(s, k, e, frames, extent.value.0, extent.value.1, pcm, before, w);
      if !status.Done? {
        return;
      }
    }
    ContributionDelayed(w, k, c.compensation, e, frames);
    added, lineAfter := Delay.Emitted(line, block), Delay.Retained(line, block);
  }

  lemma KeepsShape<S(!new)>(w: World<S>, k: nat, state: RackState<S>, length: nat)
    requires w.schedule.WellFormed() && k < |w.schedule.contributions|
    requires ScopeAligned(w, k, state, length)
    ensures SameShape(w.schedule.contributions[k].rack, state, state)
  {
    var c := w.schedule.contributions[k];
    assert w.schedule.ContributionInPlace(k);
    StatelessReady(c.rack.slots, state.instances, RackStart(w, c), ScopeInput(w, k, length), SilentAux(c.rack, w.schedule.channels, length));
  }

  lemma SilentWindow<S(!new)>(w: World<S>, k: nat, e: int, frames: nat)
    requires w.schedule.WellFormed() && k < |w.schedule.contributions|
    requires ContributionExecutionFrames(w.schedule.contributions[k], e, frames).None?
    ensures ContributionWindow(w, k, e, frames) == seq(frames, _ => Silence(w.schedule.channels))
  {
    hide Stage, ScopeInput, SilentAux;
    assert w.schedule.ContributionInPlace(k);
    var window := ContributionWindow(w, k, e, frames);
    forall i | 0 <= i < frames
      ensures window[i] == Silence(w.schedule.channels)
    {
      assert !Executes(w.schedule.contributions[k], e + i);
      assert window[i] == ContributionAt(w, k, e + i);
    }
  }

  /** `destination += source` over one block. */
  function AddBlock(destination: seq<Frame>, source: seq<Frame>): (sum: seq<Frame>)
    requires |destination| == |source|
    ensures |sum| == |destination|
  {
    seq(|destination|, i requires 0 <= i < |destination| => Add(destination[i], source[i]))
  }

  // ------------------------------------------------------------------ track inputs

  ghost predicate TrackAligned<S(!new)>(w: World<S>, h: History<S>, n: nat, e: int)
    requires w.schedule.WellFormed() && n < |w.schedule.nodes|
    requires Shaped(w.schedule, h)
  {
    assert w.schedule.NodeInPlace(n);
    forall k :: w.schedule.nodes[n].contributionStart <= k < w.schedule.nodes[n].contributionEnd ==>
      ContributionAligned(w, k, h.contributions[k], h.scopes[k], e)
  }

  ghost predicate RoutesAligned<S(!new)>(w: World<S>, h: History<S>, n: nat, e: int)
    requires w.schedule.WellFormed() && n < |w.schedule.nodes|
    requires Shaped(w.schedule, h)
  {
    assert w.schedule.NodeInPlace(n);
    forall r :: w.schedule.nodes[n].incomingStart <= r < w.schedule.nodes[n].incomingEnd ==> LineAligned(w, r, h.routes[r], e)
  }

  ghost predicate LanesShaped(bindings: seq<Binding>, lanes: seq<seq<Frame>>) {
    |lanes| == |bindings| && forall b :: 0 <= b < |lanes| ==> |lanes[b]| == bindings[b].compensation
  }

  ghost predicate RackShaped<S>(rack: Rack<S>, state: RackState<S>) {
    && |state.instances| == |rack.slots| == |rack.bindings| == |state.lanes|
    && (forall j :: 0 <= j < |state.lanes| ==> LanesShaped(rack.bindings[j], state.lanes[j]))
    && (forall j :: 0 <= j < |state.instances| && !rack.slots[j].processor.requiresStateEntry ==>
          state.instances[j].continuity.Stateless? || state.instances[j].continuity.Failed?)
  }

  /** One line for each route and contribution, one state for each rack, whatever they hold. */
  ghost predicate Shaped<S(!new)>(s: Schedule<S>, h: History<S>) {
    && |h.routes| == |s.routes| && |h.contributions| == |h.scopes| == |s.contributions|
    && |h.preRacks| == |h.postRacks| == |s.nodes|
    && (forall r :: 0 <= r < |s.routes| ==> |h.routes[r]| == s.routes[r].compensation)
    && (forall k :: 0 <= k < |s.contributions| ==> |h.contributions[k]| == s.contributions[k].compensation)
    && (forall k :: 0 <= k < |s.contributions| ==> RackShaped(s.contributions[k].rack, h.scopes[k]))
    && (forall n :: 0 <= n < |s.nodes| ==> RackShaped(s.nodes[n].preRack, h.preRacks[n]) && RackShaped(s.nodes[n].postRack, h.postRacks[n]))
  }

  ghost predicate NoInstanceFailed<S>(h: History<S>) {
    && (forall k :: 0 <= k < |h.scopes| ==> NoneFailed(h.scopes[k]))
    && (forall n :: 0 <= n < |h.preRacks| ==> NoneFailed(h.preRacks[n]))
    && (forall n :: 0 <= n < |h.postRacks| ==> NoneFailed(h.postRacks[n]))
  }

  /** What is left alone while track `n` renders. */
  ghost predicate OnlyTrackChanged<S(!new)>(s: Schedule<S>, n: nat, before: History<S>, after: History<S>)
    requires n < |s.nodes| && Shaped(s, before) && Shaped(s, after)
  {
    && after.routes == before.routes && after.preRacks == before.preRacks && after.postRacks == before.postRacks
    && forall k :: 0 <= k < |s.contributions| && !(s.nodes[n].contributionStart <= k < s.nodes[n].contributionEnd) ==>
         after.contributions[k] == before.contributions[k] && after.scopes[k] == before.scopes[k]
  }

  ghost predicate IsTrackSum<S(!new)>(w: World<S>, n: nat, hi: nat, e: int, input: seq<Frame>)
    requires w.schedule.WellFormed() && n < |w.schedule.nodes|
    requires w.schedule.nodes[n].contributionStart <= hi <= w.schedule.nodes[n].contributionEnd
  {
    forall i :: 0 <= i < |input| ==> input[i] == SumContributions(w, n, hi, e + i)
  }

  lemma TrackSumStep<S(!new)>(w: World<S>, n: nat, k: nat, e: int, input: seq<Frame>, added: seq<Frame>)
    requires w.schedule.WellFormed() && n < |w.schedule.nodes|
    requires w.schedule.nodes[n].contributionStart <= k < w.schedule.nodes[n].contributionEnd
    requires k < |w.schedule.contributions|
    requires IsTrackSum(w, n, k, e, input)
    requires added == ContributionWindow(w, k, e - w.schedule.contributions[k].compensation, |input|)
    ensures IsTrackSum(w, n, k + 1, e, AddBlock(input, added))
  {
    hide ContributionAt;
    assert w.schedule.NodeInPlace(n);
  }

  /** One contribution of track `n` moved on. */
  lemma TrackStep<S(!new)>(s: Schedule<S>, n: nat, k: nat, before: History<S>, h: History<S>, line: seq<Frame>, rack: RackState<S>)
    requires n < |s.nodes| && Shaped(s, before) && Shaped(s, h) && OnlyTrackChanged(s, n, before, h)
    requires s.nodes[n].contributionStart <= k < s.nodes[n].contributionEnd && k < |s.contributions|
    requires SameShape(s.contributions[k].rack, h.scopes[k], rack) && |line| == s.contributions[k].compensation
    ensures var after := h.(contributions := h.contributions[k := line], scopes := h.scopes[k := rack]);
            && Shaped(s, after) && OnlyTrackChanged(s, n, before, after)
            && (NoInstanceFailed(h) && NoneFailed(rack) ==> NoInstanceFailed(after))
  {
    assert RackShaped(s.contributions[k].rack, h.scopes[k]);
  }

  /** The contributions of track `n` below `k` have rendered the block, the others have not begun it. */
  ghost predicate TrackBehind<S(!new)>(w: World<S>, n: nat, k: nat, e: int, frames: nat, before: History<S>, h: History<S>)
    requires w.schedule.WellFormed() && n < |w.schedule.nodes| && Shaped(w.schedule, before)
  {
    var node := w.schedule.nodes[n];
    && w.schedule.NodeInPlace(n) && node.contributionStart <= k <= node.contributionEnd
    && Shaped(w.schedule, h) && OnlyTrackChanged(w.schedule, n, before, h) && HistoryMoves(w.schedule, Done, before, h)
    && (NoInstanceFailed(before) ==> NoInstanceFailed(h))
    && (forall j :: node.contributionStart <= j < k ==> ContributionAligned(w, j, h.contributions[j], h.scopes[j], e + frames))
    && (forall j :: k <= j < node.contributionEnd ==> ContributionAligned(w, j, h.contributions[j], h.scopes[j], e))
  }

  lemma NoneIsBehind<S(!new)>(w: World<S>, n: nat, e: int, frames: nat, before: History<S>)
    requires w.schedule.WellFormed() && n < |w.schedule.nodes| && Shaped(w.schedule, before) && TrackAligned(w, before, n, e)
    ensures w.schedule.NodeInPlace(n) && TrackBehind(w, n, w.schedule.nodes[n].contributionStart, e, frames, before, before)
  {
    hide ContributionAligned, NoInstanceFailed;
    assert w.schedule.NodeInPlace(n);
    Reflexive(w.schedule, n, before);
  }

  lemma NextInTrack<S(!new)>(w: World<S>, n: nat, k: nat, e: int, frames: nat, before: History<S>, h: History<S>)
    requires w.schedule.WellFormed() && n < |w.schedule.nodes| && Shaped(w.schedule, before)
    requires TrackBehind(w, n, k, e, frames, before, h) && k < w.schedule.nodes[n].contributionEnd
    ensures k < |w.schedule.contributions| == |h.contributions| == |h.scopes|
    ensures ContributionAligned(w, k, h.contributions[k], h.scopes[k], e)
    ensures NoInstanceFailed(before) ==> NoneFailed(h.scopes[k])
  {
    hide ContributionAligned, NoneFailed;
  }

  lemma AllIsBehind<S(!new)>(w: World<S>, n: nat, e: int, frames: nat, before: History<S>, h: History<S>)
    requires w.schedule.WellFormed() && n < |w.schedule.nodes| && Shaped(w.schedule, before)
    requires TrackBehind(w, n, w.schedule.nodes[n].contributionEnd, e, frames, before, h)
    ensures Shaped(w.schedule, h) && OnlyTrackChanged(w.schedule, n, before, h) && TrackAligned(w, h, n, e + frames)
    ensures HistoryMoves(w.schedule, Done, before, h) && (NoInstanceFailed(before) ==> NoInstanceFailed(h))
  {
    hide ContributionAligned, NoInstanceFailed;
  }

  /** One contribution more. */
  lemma TrackMoves<S(!new)>(w: World<S>, n: nat, k: nat, e: int, frames: nat, read: SourceRead, before: History<S>, h: History<S>,
                            line: seq<Frame>, rack: RackState<S>, status: Status)
    requires w.schedule.WellFormed() && n < |w.schedule.nodes| && Shaped(w.schedule, before)
    requires TrackBehind(w, n, k, e, frames, before, h) && k < w.schedule.nodes[n].contributionEnd
    requires k < |w.schedule.contributions| == |h.contributions| == |h.scopes|
    requires SameShape(w.schedule.contributions[k].rack, h.scopes[k], rack) && |line| == |h.contributions[k]|
    requires Moves(w.schedule.contributions[k].rack.slots, status, h.scopes[k], rack)
    requires status.ProcessorFailed? ==> Culprit(w.schedule.contributions[k].rack.slots, rack)
    requires status.SourceUnavailable? ==> !Reliable(read)
    requires status.Done? ==> ContributionAligned(w, k, line, rack, e + frames) && (NoneFailed(h.scopes[k]) ==> NoneFailed(rack))
    ensures var after := h.(contributions := h.contributions[k := line], scopes := h.scopes[k := rack]);
            && Shaped(w.schedule, after) && OnlyTrackChanged(w.schedule, n, before, after) && Accounts(w.schedule, read, before, after, status)
            && (status.Done? ==> TrackBehind(w, n, k + 1, e, frames, before, after))
  {
    hide ContributionAligned, NoneFailed, Moves, Culprit, Reliable, OnlyTrackChanged, SameShape;
    assert |line| == w.schedule.contributions[k].compensation;
    TrackStep(w.schedule, n, k, before, h, line, rack);
    ContributionAccounts(w.schedule, k, read, before, h, line, rack, status);
    assert NoInstanceFailed(h) ==> NoneFailed(h.scopes[k]);
  }

  /** Failures stay in every rack, and new ones come only from a processor that failed in this call. */
  ghost predicate HistoryMoves<S(!new)>(s: Schedule<S>, status: Status, before: History<S>, after: History<S>) {
    && |after.scopes| == |before.scopes| == |s.contributions| && |after.preRacks| == |before.preRacks| == |s.nodes|
    && |after.postRacks| == |before.postRacks| == |s.nodes|
    && (forall k :: 0 <= k < |s.contributions| ==> Moves(s.contributions[k].rack.slots, status, before.scopes[k], after.scopes[k]))
    && (forall n :: 0 <= n < |s.nodes| ==> Moves(s.nodes[n].preRack.slots, status, before.preRacks[n], after.preRacks[n]))
    && (forall n :: 0 <= n < |s.nodes| ==> Moves(s.nodes[n].postRack.slots, status, before.postRacks[n], after.postRacks[n]))
  }

  /** Some instance of the plan failed whose processor can fail. */
  ghost predicate PlanCulprit<S(!new)>(s: Schedule<S>, h: History<S>) {
    || (exists n :: 0 <= n < |s.nodes| && n < |h.preRacks| && Culprit(s.nodes[n].preRack.slots, h.preRacks[n]))
    || (exists n :: 0 <= n < |s.nodes| && n < |h.postRacks| && Culprit(s.nodes[n].postRack.slots, h.postRacks[n]))
    || (exists k :: 0 <= k < |s.contributions| && k < |h.scopes| && Culprit(s.contributions[k].rack.slots, h.scopes[k]))
  }

  /** Every failure has a cause outside the Session, and leaves its mark on the instance that caused it. */
  ghost predicate Accounts<S(!new)>(s: Schedule<S>, read: SourceRead, before: History<S>, after: History<S>, status: Status) {
    && HistoryMoves(s, status, before, after)
    && (status.ProcessorFailed? ==> PlanCulprit(s, after)) && (status.SourceUnavailable? ==> !Reliable(read))
  }

  lemma PlanCulpritFails<S(!new)>(s: Schedule<S>, h: History<S>)
    requires PlanCulprit(s, h)
    ensures !PlanRuns(s)
  {
    hide Culprit, RackRuns;
    if n :| 0 <= n < |s.nodes| && n < |h.preRacks| && Culprit(s.nodes[n].preRack.slots, h.preRacks[n]) {
      CulpritFails(s.nodes[n].preRack.slots, h.preRacks[n]);
    } else if n :| 0 <= n < |s.nodes| && n < |h.postRacks| && Culprit(s.nodes[n].postRack.slots, h.postRacks[n]) {
      CulpritFails(s.nodes[n].postRack.slots, h.postRacks[n]);
    } else {
      var k :| 0 <= k < |s.contributions| && k < |h.scopes| && Culprit(s.contributions[k].rack.slots, h.scopes[k]);
      CulpritFails(s.contributions[k].rack.slots, h.scopes[k]);
    }
  }

  lemma MovesOn<S(!new)>(slots: seq<Slot<S>>, status: Status, a: RackState<S>, b: RackState<S>, c: RackState<S>)
    requires Moves(slots, Done, a, b) && Moves(slots, status, b, c)
    ensures Moves(slots, status, a, c)
  {
    hide AlwaysRuns;
  }

  /** Steps that succeeded, then one more. */
  lemma HistoryMovesOn<S(!new)>(s: Schedule<S>, status: Status, a: History<S>, b: History<S>, c: History<S>)
    requires HistoryMoves(s, Done, a, b) && HistoryMoves(s, status, b, c)
    ensures HistoryMoves(s, status, a, c)
  {
    hide Moves;
    forall k | 0 <= k < |s.contributions|
      ensures Moves(s.contributions[k].rack.slots, status, a.scopes[k], c.scopes[k])
    {
      MovesOn(s.contributions[k].rack.slots, status, a.scopes[k], b.scopes[k], c.scopes[k]);
    }
    forall n | 0 <= n < |s.nodes|
      ensures Moves(s.nodes[n].preRack.slots, status, a.preRacks[n], c.preRacks[n])
      ensures Moves(s.nodes[n].postRack.slots, status, a.postRacks[n], c.postRacks[n])
    {
      MovesOn(s.nodes[n].preRack.slots, status, a.preRacks[n], b.preRacks[n], c.preRacks[n]);
      MovesOn(s.nodes[n].postRack.slots, status, a.postRacks[n], b.postRacks[n], c.postRacks[n]);
    }
  }

  lemma NothingMoved<S(!new)>(s: Schedule<S>, status: Status, h: History<S>, after: History<S>)
    requires |h.scopes| == |s.contributions| && |h.preRacks| == |h.postRacks| == |s.nodes|
    requires after.scopes == h.scopes && after.preRacks == h.preRacks && after.postRacks == h.postRacks
    ensures HistoryMoves(s, status, h, after)
  {}

  /** One contribution of a track, after others that succeeded. */
  lemma ContributionAccounts<S(!new)>(s: Schedule<S>, k: nat, read: SourceRead, before: History<S>, h: History<S>, line: seq<Frame>, rack: RackState<S>, status: Status)
    requires HistoryMoves(s, Done, before, h)
    requires k < |s.contributions| == |h.scopes| == |h.contributions| && Moves(s.contributions[k].rack.slots, status, h.scopes[k], rack)
    requires status.ProcessorFailed? ==> Culprit(s.contributions[k].rack.slots, rack)
    requires status.SourceUnavailable? ==> !Reliable(read)
    ensures Accounts(s, read, before, h.(contributions := h.contributions[k := line], scopes := h.scopes[k := rack]), status)
  {
    hide Culprit, Reliable;
    var after := h.(contributions := h.contributions[k := line], scopes := h.scopes[k := rack]);
    assert HistoryMoves(s, status, h, after);
    HistoryMovesOn(s, status, before, h, after);
  }

  /** The racks of one node, after its input was summed. */
  lemma StripAccounts<S(!new)>(s: Schedule<S>, n: nat, read: SourceRead, before: History<S>, h: History<S>, preRack: RackState<S>, postRack: RackState<S>, status: Status)
    requires HistoryMoves(s, Done, before, h)
    requires n < |s.nodes| == |h.preRacks| == |h.postRacks| && !status.SourceUnavailable?
    requires Moves(s.nodes[n].preRack.slots, status, h.preRacks[n], preRack) && Moves(s.nodes[n].postRack.slots, status, h.postRacks[n], postRack)
    requires status.ProcessorFailed? ==> Culprit(s.nodes[n].preRack.slots, preRack) || Culprit(s.nodes[n].postRack.slots, postRack)
    ensures Accounts(s, read, before, h.(preRacks := h.preRacks[n := preRack], postRacks := h.postRacks[n := postRack]), status)
  {
    hide Culprit;
    var after := h.(preRacks := h.preRacks[n := preRack], postRacks := h.postRacks[n := postRack]);
    assert HistoryMoves(s, status, h, after);
    HistoryMovesOn(s, status, before, h, after);
  }

  /** Sum the contributions of one track into its input. */
  method RenderTrackContributions<S(!new)>(s: Schedule<S>, n: nat, e: int, frames: nat, read: SourceRead, before: History<S>, ghost w: World<S>)
    returns (status: Status, input: seq<Frame>, after: History<S>)
    requires w.schedule == s && s.WellFormed() && n < |s.nodes| && s.nodes[n].origin.Track?
    requires SourceAgrees(read, w.signal, s.channels)
    requires Shaped(s, before) && TrackAligned(w, before, n, e)
    ensures status.Done? || status.SourceUnavailable? || status.ProcessorFailed? || status.PoisonedInstance?
    ensures Shaped(s, after) && OnlyTrackChanged(s, n, before, after)
    ensures status.PoisonedInstance? ==> !NoInstanceFailed(before)
    ensures Accounts(s, read, before, after, status)
    ensures status.Done? && NoInstanceFailed(before) ==> NoInstanceFailed(after)
    ensures status.Done? ==>
              && |input| == frames
              && (forall i :: 0 <= i < frames ==> input[i] == InputAt(w, n, e + i))
              && TrackAligned(w, after, n, e + frames)
  {
    hide ContributionAligned, ContributionAt, IsTrackSum, Shaped, OnlyTrackChanged, NoneFailed, NoInstanceFailed, SameShape, TrackAligned, TrackBehind,
         Accounts, HistoryMoves, Moves, Culprit, Reliable;
    NoneIsBehind(w, n, e, frames, before);
    var node := s.nodes[n];
    status, after := Done, before;
    input := seq(frames, _ => Silence(s.channels));
    TrackSumStart(w, n, e, input);
    for k := node.contributionStart to node.contributionEnd
      invariant |input| == frames && IsTrackSum(w, n, k, e, input)
      invariant TrackBehind(w, n, k, e, frames, before, after)
    {
      NextInTrack(w, n, k, e, frames, before, after);
      var added, line, rack;
      status, added, line, rack := RenderContribution(s, k, e, frames, read, after.contributions[k], after.scopes[k], w);
      TrackMoves(w, n, k, e, frames, read, before, after, line, rack, status);
      after := after.(contributions := after.contributions[k := line], scopes := after.scopes[k := rack]);
      if !status.Done? {
        return;
      }
      TrackSumStep(w, n, k, e, input, added);
      input := AddBlock(input, added);
    }
    status := Done;
    AllIsBehind(w, n, e, frames, before, after);
    NothingToBlame(s, read, before, after);
    TrackSumEnd(w, n, e, input);
  }

  lemma NothingToBlame<S(!new)>(s: Schedule<S>, read: SourceRead, before: History<S>, after: History<S>)
    ensures HistoryMoves(s, Done, before, after) <==> Accounts(s, read, before, after, Done)
  {}

  lemma TrackSumStart<S(!new)>(w: World<S>, n: nat, e: int, input: seq<Frame>)
    requires w.schedule.WellFormed() && n < |w.schedule.nodes|
    requires w.schedule.nodes[n].contributionStart <= w.schedule.nodes[n].contributionEnd
    requires forall i :: 0 <= i < |input| ==> input[i] == Silence(w.schedule.channels)
    ensures IsTrackSum(w, n, w.schedule.nodes[n].contributionStart, e, input)
  {}

  lemma TrackSumEnd<S(!new)>(w: World<S>, n: nat, e: int, input: seq<Frame>)
    requires w.schedule.WellFormed() && n < |w.schedule.nodes| && w.schedule.nodes[n].origin.Track?
    requires w.schedule.nodes[n].contributionStart <= w.schedule.nodes[n].contributionEnd
    requires IsTrackSum(w, n, w.schedule.nodes[n].contributionEnd, e, input)
    ensures forall i :: 0 <= i < |input| ==> input[i] == InputAt(w, n, e + i)
  {
    hide SumContributions;
  }

  lemma Reflexive<S(!new)>(s: Schedule<S>, n: nat, h: History<S>)
    requires n < |s.nodes| && Shaped(s, h)
    ensures OnlyTrackChanged(s, n, h, h) && HistoryMoves(s, Done, h, h)
    ensures |h.contributions| == |h.scopes| == |s.contributions|
  {}

  // ------------------------------------------------------------------ routes and scratch slots

  /** One scratch slot: the input and the three ports of the node that renders into it. */
  datatype NodeBuffers = NodeBuffers(input: seq<Frame>, preFader: seq<Frame>, postFaderPreMute: seq<Frame>, postMute: seq<Frame>) {
    function At(port: Port): seq<Frame> {
      match port
      case PreFader => preFader
      case PostFaderPreMute => postFaderPreMute
      case PostMute => postMute
    }
  }

  ghost predicate HoldsNode<S(!new)>(w: World<S>, buffers: NodeBuffers, n: nat, e: int, frames: nat)
    requires w.schedule.WellFormed() && n < |w.schedule.nodes|
  {
    forall port: Port :: buffers.At(port) == PortWindow(w, n, port, e, frames)
  }

  /** Every earlier node that still has a consumer at `n` or later holds its ports in its slot. */
  ghost predicate SlotsLive<S(!new)>(w: World<S>, buffers: seq<NodeBuffers>, n: nat, e: int, frames: nat)
    requires w.schedule.WellFormed()
  {
    && |buffers| == w.schedule.slotCount
    && forall r :: 0 <= r < |w.schedule.routes| && w.schedule.routes[r].source < n <= w.schedule.routes[r].destination ==>
         SourceLive(w, buffers, r, e, frames)
  }

  ghost predicate SourceLive<S(!new)>(w: World<S>, buffers: seq<NodeBuffers>, r: nat, e: int, frames: nat)
    requires w.schedule.WellFormed() && r < |w.schedule.routes| && |buffers| == w.schedule.slotCount
  {
    assert w.schedule.RouteInPlace(r);
    var source := w.schedule.routes[r].source;
    assert w.schedule.NodeInPlace(source);
    HoldsNode(w, buffers[w.schedule.nodes[source].scratchSlot], source, e, frames)
  }

  /** Delay one source port and add it, with gains read at the time it belongs to, to the input of its destination. */
  method SumPreparedRoute<S(!new)>(s: Schedule<S>, r: nat, e: int, frames: nat, before: seq<NodeBuffers>, line: seq<Frame>, ghost w: World<S>)
    returns (status: Status, buffers: seq<NodeBuffers>, lineAfter: seq<Frame>)
    requires w.schedule == s && s.WellFormed() && r < |s.routes| && |before| == s.slotCount
    requires SourceLive(w, before, r, e, frames)
    requires s.RouteInPlace(r) && s.NodeInPlace(s.routes[r].destination) && s.NodeInPlace(s.routes[r].source)
    requires |before[s.nodes[s.routes[r].destination].scratchSlot].input| == frames
    requires line == PortWindow(w, s.routes[r].source, s.routes[r].port, e - s.routes[r].compensation, s.routes[r].compensation)
    ensures status.Done?
    ensures lineAfter == PortWindow(w, s.routes[r].source, s.routes[r].port, e + frames - s.routes[r].compensation, s.routes[r].compensation)
    ensures |buffers| == |before|
    ensures var route := s.routes[r];
            var slot := s.nodes[route.destination].scratchSlot;
            && buffers == before[slot := before[slot].(input := buffers[slot].input)]
            && |buffers[slot].input| == frames
            && forall i :: 0 <= i < frames ==>
                 buffers[slot].input[i] == Add(before[slot].input[i],
                   Scale(PortAt(w, route.source, route.port, e + i - route.compensation), route.gain.At(e + i - s.nodes[route.destination].latency.input)))
  {
    hide PortAt;
    var route := s.routes[r];
    var sourceSlot, slot := s.nodes[route.source].scratchSlot, s.nodes[route.destination].scratchSlot;
    assert s.SlotKept(r, route.destination);
    if sourceSlot == slot {
      return InvalidPreparedSchedule, before, line;
    }
    var block := before[sourceSlot].At(route.port);
    PortDelayed(w, route.source, route.port, route.compensation, e, frames);
    var delayed := Delay.Emitted(line, block);
    var gained := seq(frames, i requires 0 <= i < frames && |delayed| == frames =>
      Scale(delayed[i], route.gain.At(e + i - s.nodes[route.destination].latency.input)));
    status, lineAfter := Done, Delay.Retained(line, block);
    buffers := before[slot := before[slot].(input := AddBlock(before[slot].input, gained))];
  }

  ghost predicate IsRouteSum<S(!new)>(w: World<S>, n: nat, hi: nat, e: int, input: seq<Frame>)
    requires w.schedule.WellFormed() && n < |w.schedule.nodes| && !w.schedule.nodes[n].origin.Track?
    requires w.schedule.nodes[n].incomingStart <= hi <= w.schedule.nodes[n].incomingEnd
  {
    forall i :: 0 <= i < |input| ==> input[i] == SumRoutes(w, n, hi, e + i)
  }

  lemma RouteSumStep<S(!new)>(w: World<S>, n: nat, r: nat, e: int, input: seq<Frame>, after: seq<Frame>)
    requires w.schedule.WellFormed() && n < |w.schedule.nodes| && !w.schedule.nodes[n].origin.Track?
    requires w.schedule.nodes[n].incomingStart <= r < w.schedule.nodes[n].incomingEnd
    requires r < |w.schedule.routes| && w.schedule.RouteInPlace(r)
    requires IsRouteSum(w, n, r, e, input) && |after| == |input|
    requires var route := w.schedule.routes[r];
             forall i :: 0 <= i < |input| ==>
               after[i] == Add(input[i], Scale(PortAt(w, route.source, route.port, e + i - route.compensation), route.gain.At(e + i - w.schedule.nodes[n].latency.input)))
    ensures IsRouteSum(w, n, r + 1, e, after)
  {
    hide PortAt;
    assert w.schedule.NodeInPlace(n);
  }

  ghost predicate OnlyRoutesChanged<S(!new)>(s: Schedule<S>, n: nat, before: seq<seq<Frame>>, after: seq<seq<Frame>>)
    requires n < |s.nodes| && |before| == |after| == |s.routes|
  {
    forall r :: 0 <= r < |s.routes| && !(s.nodes[n].incomingStart <= r < s.nodes[n].incomingEnd) ==> after[r] == before[r]
  }

  ghost predicate LineAligned<S(!new)>(w: World<S>, r: nat, line: seq<Frame>, e: int)
    requires w.schedule.WellFormed() && r < |w.schedule.routes|
  {
    assert w.schedule.RouteInPlace(r);
    var route := w.schedule.routes[r];
    line == PortWindow(w, route.source, route.port, e - route.compensation, route.compensation)
  }

  /** Sum the incoming routes of one bus or output into the cleared input of its slot. */
  method SumIncoming<S(!new)>(s: Schedule<S>, n: nat, e: int, frames: nat, before: seq<NodeBuffers>, linesBefore: seq<seq<Frame>>, ghost w: World<S>)
    returns (status: Status, buffers: seq<NodeBuffers>, lines: seq<seq<Frame>>)
    requires w.schedule == s && s.WellFormed() && n < |s.nodes| && !s.nodes[n].origin.Track?
    requires |linesBefore| == |s.routes| && s.NodeInPlace(n)
    requires SlotsLive(w, before, n, e, frames)
    requires before[s.nodes[n].scratchSlot].input == seq(frames, _ => Silence(s.channels))
    requires forall r :: s.nodes[n].incomingStart <= r < s.nodes[n].incomingEnd ==> LineAligned(w, r, linesBefore[r], e)
    ensures status.Done?
    ensures |lines| == |linesBefore| && OnlyRoutesChanged(s, n, linesBefore, lines)
    ensures forall r :: 0 <= r < |lines| ==> |lines[r]| == |linesBefore[r]|
    ensures forall r :: s.nodes[n].incomingStart <= r < s.nodes[n].incomingEnd ==> LineAligned(w, r, lines[r], e + frames)
    ensures |buffers| == |before|
    ensures buffers == before[s.nodes[n].scratchSlot := before[s.nodes[n].scratchSlot].(input := buffers[s.nodes[n].scratchSlot].input)]
    ensures |buffers[s.nodes[n].scratchSlot].input| == frames
    ensures forall i :: 0 <= i < frames ==> buffers[s.nodes[n].scratchSlot].input[i] == InputAt(w, n, e + i)
  {
    hide PortAt, IsRouteSum, SlotsLive, SourceLive, InputAt, SumRoutes, PortWindow, LinesBehind, OnlyRoutesChanged, LineAligned;
    var node := s.nodes[n];
    var slot := node.scratchSlot;
    status, buffers, lines := Done, before, linesBefore;
    SlotsAreThere(w, before, n, e, frames);
    RouteSumStart(w, n, e, before[slot].input);
    NoLineIsBehind(w, n, e, frames, linesBefore);
    for r := node.incomingStart to node.incomingEnd
      invariant |buffers| == |before| && buffers == before[slot := before[slot].(input := buffers[slot].input)]
      invariant |buffers[slot].input| == frames && IsRouteSum(w, n, r, e, buffers[slot].input)
      invariant LinesBehind(w, n, r, e, frames, linesBefore, lines)
      invariant status.Done?
    {
      NextLine(w, n, r, e, frames, linesBefore, lines);
      OtherSlotsLive(w, n, r, before, buffers, e, frames);
      ghost var input := buffers[slot].input;
      var line;
      status, buffers, line := SumPreparedRoute(s, r, e, frames, buffers, lines[r], w);
      LineMoves(w, n, r, e, frames, linesBefore, lines, line);
      lines := lines[r := line];
      RouteSumStep(w, n, r, e, input, buffers[slot].input);
    }
    AllLinesAreBehind(w, n, e, frames, linesBefore, lines);
    RouteSumEnd(w, n, e, buffers[slot].input);
  }

  lemma SlotsAreThere<S(!new)>(w: World<S>, buffers: seq<NodeBuffers>, n: nat, e: int, frames: nat)
    requires w.schedule.WellFormed() && n < |w.schedule.nodes| && SlotsLive(w, buffers, n, e, frames)
    ensures w.schedule.nodes[n].scratchSlot < |buffers| == w.schedule.slotCount
  {
    assert w.schedule.NodeInPlace(n);
  }

  /** The lines of the routes into `n` below `r` have taken in the block, the others have not. */
  ghost predicate LinesBehind<S(!new)>(w: World<S>, n: nat, r: nat, e: int, frames: nat, before: seq<seq<Frame>>, lines: seq<seq<Frame>>)
    requires w.schedule.WellFormed() && n < |w.schedule.nodes| && w.schedule.NodeInPlace(n) && |before| == |w.schedule.routes|
  {
    var node := w.schedule.nodes[n];
    && |lines| == |before| && OnlyRoutesChanged(w.schedule, n, before, lines)
    && (forall j :: 0 <= j < |lines| ==> |lines[j]| == |before[j]|)
    && (forall j :: node.incomingStart <= j < r && j < |lines| ==> LineAligned(w, j, lines[j], e + frames))
    && (forall j :: r <= j < node.incomingEnd ==> LineAligned(w, j, lines[j], e))
  }

  lemma NoLineIsBehind<S(!new)>(w: World<S>, n: nat, e: int, frames: nat, before: seq<seq<Frame>>)
    requires w.schedule.WellFormed() && n < |w.schedule.nodes| && w.schedule.NodeInPlace(n) && |before| == |w.schedule.routes|
    requires forall r :: w.schedule.nodes[n].incomingStart <= r < w.schedule.nodes[n].incomingEnd ==> LineAligned(w, r, before[r], e)
    ensures LinesBehind(w, n, w.schedule.nodes[n].incomingStart, e, frames, before, before)
  {
    hide LineAligned;
  }

  lemma NextLine<S(!new)>(w: World<S>, n: nat, r: nat, e: int, frames: nat, before: seq<seq<Frame>>, lines: seq<seq<Frame>>)
    requires w.schedule.WellFormed() && n < |w.schedule.nodes| && w.schedule.NodeInPlace(n) && |before| == |w.schedule.routes|
    requires !w.schedule.nodes[n].origin.Track? && w.schedule.nodes[n].incomingStart <= r < w.schedule.nodes[n].incomingEnd
    requires LinesBehind(w, n, r, e, frames, before, lines)
    ensures r < |lines| == |w.schedule.routes| && w.schedule.RouteInPlace(r) && w.schedule.routes[r].destination == n && w.schedule.NodeInPlace(w.schedule.routes[r].source)
    ensures var route := w.schedule.routes[r];
            lines[r] == PortWindow(w, route.source, route.port, e - route.compensation, route.compensation)
  {
    hide PortWindow;
    assert w.schedule.RouteInPlace(r) && w.schedule.NodeInPlace(w.schedule.routes[r].source);
    assert LineAligned(w, r, lines[r], e);
  }

  lemma LineMoves<S(!new)>(w: World<S>, n: nat, r: nat, e: int, frames: nat, before: seq<seq<Frame>>, lines: seq<seq<Frame>>, line: seq<Frame>)
    requires w.schedule.WellFormed() && n < |w.schedule.nodes| && w.schedule.NodeInPlace(n) && |before| == |w.schedule.routes|
    requires w.schedule.nodes[n].incomingStart <= r < w.schedule.nodes[n].incomingEnd
    requires LinesBehind(w, n, r, e, frames, before, lines) && w.schedule.RouteInPlace(r)
    requires var route := w.schedule.routes[r];
             && line == PortWindow(w, route.source, route.port, e + frames - route.compensation, route.compensation)
             && lines[r] == PortWindow(w, route.source, route.port, e - route.compensation, route.compensation)
    ensures LinesBehind(w, n, r + 1, e, frames, before, lines[r := line])
  {
    hide PortWindow;
    var after := lines[r := line];
    assert LineAligned(w, r, after[r], e + frames);
    assert |line| == |lines[r]|;
    hide LineAligned;
    assert forall j :: 0 <= j < |lines| && j != r ==> after[j] == lines[j];
  }

  lemma AllLinesAreBehind<S(!new)>(w: World<S>, n: nat, e: int, frames: nat, before: seq<seq<Frame>>, lines: seq<seq<Frame>>)
    requires w.schedule.WellFormed() && n < |w.schedule.nodes| && w.schedule.NodeInPlace(n) && |before| == |w.schedule.routes|
    requires LinesBehind(w, n, w.schedule.nodes[n].incomingEnd, e, frames, before, lines)
    ensures |lines| == |before| && OnlyRoutesChanged(w.schedule, n, before, lines)
    ensures forall r :: 0 <= r < |lines| ==> |lines[r]| == |before[r]|
    ensures forall r :: w.schedule.nodes[n].incomingStart <= r < w.schedule.nodes[n].incomingEnd ==> LineAligned(w, r, lines[r], e + frames)
  {
    hide LineAligned;
  }

  lemma OtherSlotsLive<S(!new)>(w: World<S>, n: nat, r: nat, before: seq<NodeBuffers>, buffers: seq<NodeBuffers>, e: int, frames: nat)
    requires w.schedule.WellFormed() && n < |w.schedule.nodes| && r < |w.schedule.routes| && w.schedule.routes[r].destination == n
    requires |before| == |buffers| == w.schedule.slotCount
    requires forall slot :: 0 <= slot < |before| && slot != w.schedule.nodes[n].scratchSlot ==> buffers[slot] == before[slot]
    requires SlotsLive(w, before, n, e, frames)
    ensures SourceLive(w, buffers, r, e, frames)
  {
    hide PortAt;
    assert w.schedule.RouteInPlace(r);
    assert SourceLive(w, before, r, e, frames);
    assert w.schedule.NodeInPlace(w.schedule.routes[r].source);
    assert w.schedule.SlotKept(r, n);
  }

  lemma RouteSumStart<S(!new)>(w: World<S>, n: nat, e: int, input: seq<Frame>)
    requires w.schedule.WellFormed() && n < |w.schedule.nodes| && !w.schedule.nodes[n].origin.Track?
    requires w.schedule.NodeInPlace(n)
    requires forall i :: 0 <= i < |input| ==> input[i] == Silence(w.schedule.channels)
    ensures IsRouteSum(w, n, w.schedule.nodes[n].incomingStart, e, input)
  {}

  lemma RouteSumEnd<S(!new)>(w: World<S>, n: nat, e: int, input: seq<Frame>)
    requires w.schedule.WellFormed() && n < |w.schedule.nodes| && !w.schedule.nodes[n].origin.Track?
    requires w.schedule.NodeInPlace(n)
    requires IsRouteSum(w, n, w.schedule.nodes[n].incomingEnd, e, input)
    ensures forall i :: 0 <= i < |input| ==> input[i] == InputAt(w, n, e + i)
  {
    hide SumRoutes;
  }

  // ------------------------------------------------------------------ channel strips

  /** One block through the pre-fader or post-fader rack of a node. */
  method RunNodeRack<S(!new)>(s: Schedule<S>, n: nat, post: bool, e: int, block: seq<Frame>, before: RackState<S>,
                              snapshots: seq<seq<Frame>>, ghost w: World<S>)
    returns (status: Status, pcm: seq<Frame>, after: RackState<S>)
    requires w.schedule == s && s.WellFormed() && n < |s.nodes|
    requires RackAligned(w, n, post, before, e) && SnapshotsTaken(w, snapshots, n, e, |block|)
    requires IsRackBlock(w, n, post, e, block)
    ensures status.Done? || status.ProcessorFailed? || status.PoisonedInstance?
    ensures SameShape(s.nodes[n].RackAt(post), before, after)
    ensures status.PoisonedInstance? ==> !NoneFailed(before)
    ensures Moves(s.nodes[n].RackAt(post).slots, status, before, after)
    ensures status.ProcessorFailed? ==> Culprit(s.nodes[n].RackAt(post).slots, after)
    ensures status.Done? ==>
              && |pcm| == |block|
              && (forall i :: 0 <= i < |pcm| ==> pcm[i] == RackOutputAt(w, n, post, e + i))
              && RackAligned(w, n, post, after, e + |block|)
              && NoneFailed(after)
  {
    hide PortAt, RackInput, AuxHistory, RackReady, RackAux, IsRackBlock, SnapshotsTaken, Stage, RackOutputAt, StreamingRack, Moves, Culprit;
    LanesFitHere(w, n, post, before, snapshots, e, |block|);
    ghost var main, aux := RackInput(w, n, post, e - w.entry), AuxHistory(w, n, post, e - w.entry);
    status, pcm, after := ProcessRack(s.nodes[n].RackAt(post), before, e, block, snapshots, s.channels, w.entry, main, aux);
    if status.Done? {
      RackBlock(w, n, post, before, after, snapshots, e, block, pcm);
    }
  }

  /** Trim, pre-fader rack, fader, post-fader rack and mute of one node. */
  method ProcessStrip<S(!new)>(s: Schedule<S>, n: nat, e: int, frames: nat, before: NodeBuffers, snapshots: seq<seq<Frame>>,
                               preBefore: RackState<S>, postBefore: RackState<S>, ghost w: World<S>)
    returns (status: Status, buffers: NodeBuffers, preRack: RackState<S>, postRack: RackState<S>)
    requires w.schedule == s && s.WellFormed() && n < |s.nodes|
    requires |before.input| == frames && forall i :: 0 <= i < frames ==> before.input[i] == InputAt(w, n, e + i)
    requires RackAligned(w, n, false, preBefore, e) && RackAligned(w, n, true, postBefore, e)
    requires SnapshotsTaken(w, snapshots, n, e, frames)
    requires SameShape(s.nodes[n].preRack, preBefore, preBefore) && SameShape(s.nodes[n].postRack, postBefore, postBefore)
    ensures status.Done? || status.ProcessorFailed? || status.PoisonedInstance?
    ensures SameShape(s.nodes[n].preRack, preBefore, preRack) && SameShape(s.nodes[n].postRack, postBefore, postRack)
    ensures status.PoisonedInstance? ==> !NoneFailed(preBefore) || !NoneFailed(postBefore)
    ensures Moves(s.nodes[n].preRack.slots, status, preBefore, preRack) && Moves(s.nodes[n].postRack.slots, status, postBefore, postRack)
    ensures status.ProcessorFailed? ==> Culprit(s.nodes[n].preRack.slots, preRack) || Culprit(s.nodes[n].postRack.slots, postRack)
    ensures status.Done? ==>
              && HoldsNode(w, buffers, n, e, frames)
              && RackAligned(w, n, false, preRack, e + frames) && RackAligned(w, n, true, postRack, e + frames)
              && NoneFailed(preBefore) && NoneFailed(postBefore) && NoneFailed(preRack) && NoneFailed(postRack)
  {
    hide RackAligned, SnapshotsTaken, InputAt, NoneFailed, SameShape, RackOutputAt, Culprit;
    var node := s.nodes[n];
    buffers, preRack, postRack := before, preBefore, postBefore;
    var trimmed := seq(frames, i requires 0 <= i < frames && |before.input| == frames => Scale(before.input[i], node.trim));
    status, trimmed, preRack := RunNodeRack(s, n, false, e, trimmed, preBefore, snapshots, w);
    if !status.Done? {
      return;
    }
    var faded := seq(frames, i requires 0 <= i < frames && |trimmed| == frames =>
      Scale(trimmed[i], node.fader.At(e + i - node.latency.preFader)));
    var post;
    status, post, postRack := RunNodeRack(s, n, true, e, faded, postBefore, snapshots, w);
    if !status.Done? {
      return;
    }
    var muted := if node.muted then seq(frames, _ => Silence(s.channels)) else post;
    buffers := NodeBuffers(before.input, trimmed, post, muted);
    StripPorts(w, n, e, frames, buffers);
    WholeBefore(node.preRack.slots, status, preBefore, preRack);
    WholeBefore(node.postRack.slots, status, postBefore, postRack);
  }

  lemma StripPorts<S(!new)>(w: World<S>, n: nat, e: int, frames: nat, buffers: NodeBuffers)
    requires w.schedule.WellFormed() && n < |w.schedule.nodes|
    requires |buffers.preFader| == |buffers.postFaderPreMute| == |buffers.postMute| == frames
    requires forall i :: 0 <= i < frames ==> buffers.preFader[i] == RackOutputAt(w, n, false, e + i)
    requires forall i :: 0 <= i < frames ==> buffers.postFaderPreMute[i] == RackOutputAt(w, n, true, e + i)
    requires buffers.postMute == if w.schedule.nodes[n].muted then seq(frames, _ => Silence(w.schedule.channels)) else buffers.postFaderPreMute
    ensures HoldsNode(w, buffers, n, e, frames)
  {
    hide RackOutputAt;
    forall port: Port
      ensures buffers.At(port) == PortWindow(w, n, port, e, frames)
    {
      var window := PortWindow(w, n, port, e, frames);
      forall i | 0 <= i < frames
        ensures buffers.At(port)[i] == window[i]
      {
        assert window[i] == PortAt(w, n, port, e + i);
      }
    }
  }

  // ------------------------------------------------------------------ one node

  ghost predicate NodeAligned<S(!new)>(w: World<S>, h: History<S>, n: nat, e: int)
    requires w.schedule.WellFormed() && n < |w.schedule.nodes| && Shaped(w.schedule, h)
  {
    && (if w.schedule.nodes[n].origin.Track? then TrackAligned(w, h, n, e) else RoutesAligned(w, h, n, e))
    && RackAligned(w, n, false, h.preRacks[n], e)
    && RackAligned(w, n, true, h.postRacks[n], e)
  }

  ghost predicate OnlyNodeChanged<S(!new)>(s: Schedule<S>, n: nat, before: History<S>, after: History<S>)
    requires n < |s.nodes| && Shaped(s, before) && Shaped(s, after)
  {
    && (forall m :: 0 <= m < |s.nodes| && m != n ==> after.preRacks[m] == before.preRacks[m] && after.postRacks[m] == before.postRacks[m])
    && (forall r :: 0 <= r < |s.routes| && (s.nodes[n].origin.Track? || !(s.nodes[n].incomingStart <= r < s.nodes[n].incomingEnd)) ==>
          after.routes[r] == before.routes[r])
    && (forall k :: 0 <= k < |s.contributions| && (!s.nodes[n].origin.Track? || !(s.nodes[n].contributionStart <= k < s.nodes[n].contributionEnd)) ==>
          after.contributions[k] == before.contributions[k] && after.scopes[k] == before.scopes[k])
  }

  /** Other nodes do not notice that `n` rendered. */
  lemma OthersStayAligned<S(!new)>(w: World<S>, n: nat, m: nat, before: History<S>, after: History<S>, e: int)
    requires w.schedule.WellFormed() && n < |w.schedule.nodes| && m < |w.schedule.nodes| && m != n
    requires Shaped(w.schedule, before) && Shaped(w.schedule, after) && OnlyNodeChanged(w.schedule, n, before, after)
    requires NodeAligned(w, before, m, e)
    ensures NodeAligned(w, after, m, e)
  {
    hide ContributionAligned, LineAligned, RackAligned, RackShaped;
    var s := w.schedule;
    assert s.NodeInPlace(m) && s.NodeInPlace(n);
    if s.nodes[m].origin.Track? {
      forall k | s.nodes[m].contributionStart <= k < s.nodes[m].contributionEnd
        ensures after.contributions[k] == before.contributions[k] && after.scopes[k] == before.scopes[k]
      {
        assert s.ContributionInPlace(k);
      }
    } else {
      forall r | s.nodes[m].incomingStart <= r < s.nodes[m].incomingEnd
        ensures after.routes[r] == before.routes[r]
      {
        assert s.RouteInPlace(r);
      }
    }
  }

  /** The nodes `[from, to)` have rendered up to `e`. */
  ghost predicate AllAligned<S(!new)>(w: World<S>, h: History<S>, from: nat, to: nat, e: int)
    requires w.schedule.WellFormed() && to <= |w.schedule.nodes| && Shaped(w.schedule, h)
  {
    forall m :: from <= m < to ==> NodeAligned(w, h, m, e)
  }

  /** The state of a block of which the nodes before `n` have rendered. */
  ghost predicate BlockReady<S(!new)>(w: World<S>, h: History<S>, buffers: seq<NodeBuffers>, snapshots: seq<seq<Frame>>, n: nat, e: int, frames: nat)
    requires w.schedule.WellFormed() && n <= |w.schedule.nodes|
  {
    && Shaped(w.schedule, h)
    && AllAligned(w, h, 0, n, e + frames)
    && AllAligned(w, h, n, |w.schedule.nodes|, e)
    && SlotsLive(w, buffers, n, e, frames)
    && SnapshotsTaken(w, snapshots, n, e, frames)
  }

  /** Writing the slot of node `n` keeps everything that is still needed. */
  lemma WritingKeepsLive<S(!new)>(w: World<S>, n: nat, before: seq<NodeBuffers>, buffers: seq<NodeBuffers>, e: int, frames: nat)
    requires w.schedule.WellFormed() && n < |w.schedule.nodes|
    requires SlotsLive(w, before, n, e, frames) && |buffers| == |before|
    requires forall slot :: 0 <= slot < |before| && slot != w.schedule.nodes[n].scratchSlot ==> buffers[slot] == before[slot]
    ensures SlotsLive(w, buffers, n, e, frames)
  {
    hide HoldsNode;
    forall r | 0 <= r < |w.schedule.routes| && w.schedule.routes[r].source < n <= w.schedule.routes[r].destination
      ensures SourceLive(w, buffers, r, e, frames)
    {
      assert SourceLive(w, before, r, e, frames);
      assert w.schedule.RouteInPlace(r);
      assert w.schedule.NodeInPlace(w.schedule.routes[r].source);
      assert w.schedule.SlotKept(r, n);
    }
  }

  /** A node that holds its ports joins the live nodes for everything after it. */
  lemma RenderedIsLive<S(!new)>(w: World<S>, n: nat, buffers: seq<NodeBuffers>, e: int, frames: nat)
    requires w.schedule.WellFormed() && n < |w.schedule.nodes| && w.schedule.NodeInPlace(n)
    requires SlotsLive(w, buffers, n, e, frames)
    requires HoldsNode(w, buffers[w.schedule.nodes[n].scratchSlot], n, e, frames)
    ensures SlotsLive(w, buffers, n + 1, e, frames)
  {
    hide HoldsNode;
  }

  /** Copy the ports that sidechains tap from node `n`. */
  method TakeSnapshots<S(!new)>(s: Schedule<S>, n: nat, e: int, frames: nat, buffers: NodeBuffers, before: seq<seq<Frame>>, ghost w: World<S>)
    returns (snapshots: seq<seq<Frame>>)
    requires w.schedule == s && s.WellFormed() && n < |s.nodes|
    requires HoldsNode(w, buffers, n, e, frames) && SnapshotsTaken(w, before, n, e, frames)
    ensures SnapshotsTaken(w, snapshots, n + 1, e, frames)
  {
    hide PortAt;
    assert s.NodeInPlace(n);
    var taps := s.nodes[n].sidechainBuffers;
    snapshots := before;
    assert forall j :: 0 <= j < |taps| ==> taps[j] in taps;
    for i := 0 to |taps|
      invariant |snapshots| == |before| && forall j :: 0 <= j < |taps| ==> taps[j] < |before|
      invariant forall t :: 0 <= t < |snapshots| && s.sidechainSources[t].node < n ==> snapshots[t] == before[t]
      invariant forall j :: 0 <= j < i ==> snapshots[taps[j]] == PortWindow(w, n, s.sidechainSources[taps[j]].port, e, frames)
    {
      assert taps[i] in taps;
      snapshots := snapshots[taps[i] := buffers.At(s.sidechainSources[taps[i]].port)];
    }
    forall t | 0 <= t < |snapshots| && s.sidechainSources[t].node == n
      ensures snapshots[t] == PortWindow(w, n, s.sidechainSources[t].port, e, frames)
    {
      assert s.SnapshotTaken(t);
    }
  }

  lemma LiveLengths<S(!new)>(w: World<S>, buffers: seq<NodeBuffers>, snapshots: seq<seq<Frame>>, n: nat, e: int, frames: nat)
    requires w.schedule.WellFormed() && n <= |w.schedule.nodes|
    ensures SlotsLive(w, buffers, n, e, frames) ==> |buffers| == w.schedule.slotCount
    ensures SnapshotsTaken(w, snapshots, n, e, frames) ==> |snapshots| == |w.schedule.sidechainSources|
  {}

  /** Summing the input moved only lines of node `n`; its racks are still where they were. */
  lemma SummedInput<S(!new)>(w: World<S>, n: nat, before: History<S>, summed: History<S>, e: int)
    requires w.schedule.WellFormed() && n < |w.schedule.nodes|
    requires Shaped(w.schedule, before) && NodeAligned(w, before, n, e)
    requires if w.schedule.nodes[n].origin.Track? then Shaped(w.schedule, summed) && OnlyTrackChanged(w.schedule, n, before, summed)
             else |summed.routes| == |before.routes| && summed == before.(routes := summed.routes)
                  && OnlyRoutesChanged(w.schedule, n, before.routes, summed.routes)
                  && forall r :: 0 <= r < |summed.routes| ==> |summed.routes[r]| == |before.routes[r]|
    ensures Shaped(w.schedule, summed) && OnlyNodeChanged(w.schedule, n, before, summed)
    ensures RackAligned(w, n, false, summed.preRacks[n], e) && RackAligned(w, n, true, summed.postRacks[n], e)
    ensures SameShape(w.schedule.nodes[n].preRack, summed.preRacks[n], summed.preRacks[n])
    ensures SameShape(w.schedule.nodes[n].postRack, summed.postRacks[n], summed.postRacks[n])
  {
    hide RackAligned, TrackAligned, RoutesAligned;
  }

  /** With its racks moved on as well, node `n` is behind the block and all others are where they were. */
  lemma StripStep<S(!new)>(w: World<S>, n: nat, before: History<S>, summed: History<S>, h: History<S>, e: int, frames: nat)
    requires w.schedule.WellFormed() && n < |w.schedule.nodes|
    requires Shaped(w.schedule, before) && Shaped(w.schedule, summed) && OnlyNodeChanged(w.schedule, n, before, summed)
    requires AllAligned(w, before, 0, n, e + frames) && AllAligned(w, before, n, |w.schedule.nodes|, e)
    requires if w.schedule.nodes[n].origin.Track? then TrackAligned(w, summed, n, e + frames) else RoutesAligned(w, summed, n, e + frames)
    requires |h.preRacks| == |h.postRacks| == |w.schedule.nodes|
    requires h == summed.(preRacks := summed.preRacks[n := h.preRacks[n]], postRacks := summed.postRacks[n := h.postRacks[n]])
    requires SameShape(w.schedule.nodes[n].preRack, summed.preRacks[n], h.preRacks[n])
    requires SameShape(w.schedule.nodes[n].postRack, summed.postRacks[n], h.postRacks[n])
    ensures Shaped(w.schedule, h)
    ensures NoInstanceFailed(summed) && NoneFailed(h.preRacks[n]) && NoneFailed(h.postRacks[n]) ==> NoInstanceFailed(h)
    ensures RackAligned(w, n, false, h.preRacks[n], e + frames) && RackAligned(w, n, true, h.postRacks[n], e + frames) ==>
              AllAligned(w, h, 0, n + 1, e + frames) && AllAligned(w, h, n + 1, |w.schedule.nodes|, e)
  {
    hide RackAligned, NodeAligned, TrackAligned, RoutesAligned, NoneFailed, RackShaped, SameShape;
    StripShape(w.schedule, n, summed, h);
    assert OnlyNodeChanged(w.schedule, n, before, h);
    if RackAligned(w, n, false, h.preRacks[n], e + frames) && RackAligned(w, n, true, h.postRacks[n], e + frames) {
      RestStaysAligned(w, n, before, h, 0, n, e + frames);
      RestStaysAligned(w, n, before, h, n + 1, |w.schedule.nodes|, e);
      NodeIsAligned(w, n, summed, h, e + frames);
    }
  }

  lemma RestStaysAligned<S(!new)>(w: World<S>, n: nat, before: History<S>, h: History<S>, from: nat, to: nat, e: int)
    requires w.schedule.WellFormed() && n < |w.schedule.nodes| && to <= |w.schedule.nodes| && !(from <= n < to)
    requires Shaped(w.schedule, before) && Shaped(w.schedule, h) && OnlyNodeChanged(w.schedule, n, before, h)
    requires AllAligned(w, before, from, to, e)
    ensures AllAligned(w, h, from, to, e)
  {
    hide NodeAligned, OnlyNodeChanged;
    forall m | from <= m < to
      ensures NodeAligned(w, h, m, e)
    {
      OthersStayAligned(w, n, m, before, h, e);
    }
  }

  lemma NodeIsAligned<S(!new)>(w: World<S>, n: nat, summed: History<S>, h: History<S>, e: int)
    requires w.schedule.WellFormed() && n < |w.schedule.nodes| && Shaped(w.schedule, summed) && Shaped(w.schedule, h)
    requires h.routes == summed.routes && h.contributions == summed.contributions && h.scopes == summed.scopes
    requires if w.schedule.nodes[n].origin.Track? then TrackAligned(w, summed, n, e) else RoutesAligned(w, summed, n, e)
    requires RackAligned(w, n, false, h.preRacks[n], e) && RackAligned(w, n, true, h.postRacks[n], e)
    ensures NodeAligned(w, h, n, e)
  {
    hide RackAligned, ContributionAligned, LineAligned;
  }

  lemma StripShape<S(!new)>(s: Schedule<S>, n: nat, summed: History<S>, h: History<S>)
    requires n < |s.nodes| && Shaped(s, summed)
    requires |h.preRacks| == |h.postRacks| == |s.nodes|
    requires h == summed.(preRacks := summed.preRacks[n := h.preRacks[n]], postRacks := summed.postRacks[n := h.postRacks[n]])
    requires SameShape(s.nodes[n].preRack, summed.preRacks[n], h.preRacks[n])
    requires SameShape(s.nodes[n].postRack, summed.postRacks[n], h.postRacks[n])
    ensures Shaped(s, h)
  {
    assert RackShaped(s.nodes[n].preRack, summed.preRacks[n]) && RackShaped(s.nodes[n].postRack, summed.postRacks[n]);
  }

  /** Render one node of a block: its input, its strip, its snapshots. */
  method RenderNode<S(!new)>(s: Schedule<S>, n: nat, e: int, frames: nat, read: SourceRead, before: History<S>,
                             buffersBefore: seq<NodeBuffers>, snapshotsBefore: seq<seq<Frame>>, ghost w: World<S>)
    returns (status: Status, h: History<S>, buffers: seq<NodeBuffers>, snapshots: seq<seq<Frame>>)
    requires w.schedule == s && s.WellFormed() && n < |s.nodes|
    requires SourceAgrees(read, w.signal, s.channels)
    requires BlockReady(w, before, buffersBefore, snapshotsBefore, n, e, frames)
    ensures status.Done? || status.SourceUnavailable? || status.ProcessorFailed? || status.PoisonedInstance?
    ensures Shaped(s, h) && |buffers| == |buffersBefore| && |snapshots| == |snapshotsBefore|
    ensures status.PoisonedInstance? ==> !NoInstanceFailed(before)
    ensures Accounts(s, read, before, h, status)
    ensures status.Done? ==>
              && BlockReady(w, h, buffers, snapshots, n + 1, e, frames)
              && s.nodes[n].scratchSlot < |buffers| && HoldsNode(w, buffers[s.nodes[n].scratchSlot], n, e, frames)
              && (NoInstanceFailed(before) ==> NoInstanceFailed(h))
              && NoneFailed(before.preRacks[n]) && NoneFailed(before.postRacks[n])
  {
    hide NoneFailed, HoldsNode, RackAligned, TrackAligned, LineAligned, InputAt, SnapshotsTaken, SlotsLive, SourceLive, RackShaped, Accounts, HistoryMoves, Moves, Culprit;
    assert s.NodeInPlace(n);
    assert NodeAligned(w, before, n, e);
    var node := s.nodes[n];
    var slot := node.scratchSlot;
    var silence := seq(frames, _ => Silence(s.channels));
    h, snapshots := before, snapshotsBefore;
    LiveLengths(w, buffersBefore, snapshotsBefore, n, e, frames);
    buffers := buffersBefore[slot := NodeBuffers(silence, silence, silence, silence)];
    WritingKeepsLive(w, n, buffersBefore, buffers, e, frames);
    if node.origin.Track? {
      var input;
      status, input, h := RenderTrackContributions(s, n, e, frames, read, before, w);
      if !status.Done? {
        return;
      }
      buffers := buffers[slot := buffers[slot].(input := input)];
    } else {
      var lines;
      status, buffers, lines := SumIncoming(s, n, e, frames, buffers, before.routes, w);
      h := before.(routes := lines);
      NothingMoved(s, Done, before, h);
      NothingToBlame(s, read, before, h);
    }
    ghost var summed := h;
    NothingToBlame(s, read, before, summed);
    SummedInput(w, n, before, summed, e);
    var strip, preRack, postRack;
    status, strip, preRack, postRack := ProcessStrip(s, n, e, frames, buffers[slot], snapshots, h.preRacks[n], h.postRacks[n], w);
    h := h.(preRacks := h.preRacks[n := preRack], postRacks := h.postRacks[n := postRack]);
    StripStep(w, n, before, summed, h, e, frames);
    StripAccounts(s, n, read, before, summed, preRack, postRack, status);
    if !status.Done? {
      return;
    }
    buffers := buffers[slot := strip];
    WritingKeepsLive(w, n, buffersBefore, buffers, e, frames);
    RenderedIsLive(w, n, buffers, e, frames);
    snapshots := TakeSnapshots(s, n, e, frames, strip, snapshots, w);
    LiveLengths(w, buffers, snapshots, n + 1, e, frames);
  }
}
