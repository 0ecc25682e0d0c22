/** What the mutable DSP state of a Session holds once it has rendered an epoch
    up to some execution sample, and why every block moves it on exactly. */
module Alignment {
  import opened Frames
  import opened Graph
  import opened Processors
  import opened SourceFrames
  import opened Schedule
  import opened Host
  import Delay

  /** Delay lines and rack states of one Session. */
  datatype History<!S> = History(
    routes: seq<seq<Frame>>,
    contributions: seq<seq<Frame>>,
    scopes: seq<RackState<S>>,
    preRacks: seq<RackState<S>>,
    postRacks: seq<RackState<S>>)

  // ------------------------------------------------------------------ windows of a port

  ghost function PortWindow<S(!new)>(w: World<S>, n: nat, port: Port, from: int, length: nat): (window: seq<Frame>)
    requires w.schedule.WellFormed() && n < |w.schedule.nodes|
    ensures |window| == length
  {
    seq(length, i requires 0 <= i < length => PortAt(w, n, port, from + i))
  }

  ghost function ContributionWindow<S(!new)>(w: World<S>, k: nat, from: int, length: nat): (window: seq<Frame>)
    requires w.schedule.WellFormed() && k < |w.schedule.contributions|
    ensures |window| == length
  {
    seq(length, i requires 0 <= i < length => ContributionAt(w, k, from + i))
  }

  /** A line holding the last `delay` frames of a port emits the port `delay` frames late. */
  lemma PortDelayed<S(!new)>(w: World<S>, n: nat, port: Port, delay: nat, e: int, frames: nat)
    requires w.schedule.WellFormed() && n < |w.schedule.nodes|
    ensures Delay.Emitted(PortWindow(w, n, port, e - delay, delay), PortWindow(w, n, port, e, frames)) == PortWindow(w, n, port, e - delay, frames)
    ensures Delay.Retained(PortWindow(w, n, port, e - delay, delay), PortWindow(w, n, port, e, frames)) == PortWindow(w, n, port, e + frames - delay, delay)
  {
    hide PortAt;
  }

  lemma ContributionDelayed<S(!new)>(w: World<S>, k: nat, delay: nat, e: int, frames: nat)
    requires w.schedule.WellFormed() && k < |w.schedule.contributions|
    ensures Delay.Emitted(ContributionWindow(w, k, e - delay, delay), ContributionWindow(w, k, e, frames)) == ContributionWindow(w, k, e - delay, frames)
    ensures Delay.Retained(ContributionWindow(w, k, e - delay, delay), ContributionWindow(w, k, e, frames)) == ContributionWindow(w, k, e + frames - delay, delay)
  {
    hide ContributionAt;
  }

  // ------------------------------------------------------------------ node racks

  ghost predicate LaneSetAligned<S(!new)>(w: World<S>, n: nat, bindings: seq<Binding>, buses: nat, lanes: seq<seq<Frame>>, e: int)
    requires w.schedule.WellFormed() && n < |w.schedule.nodes|
    requires forall b :: 0 <= b < |bindings| ==> w.schedule.BindingInPlace(n, bindings[b], buses)
  {
    && |lanes| == |bindings|
    && forall b :: 0 <= b < |bindings| ==>
         assert w.schedule.BindingInPlace(n, bindings[b], buses);
         var source := w.schedule.sidechainSources[bindings[b].sourceBuffer];
         lanes[b] == PortWindow(w, source.node, source.port, e - bindings[b].compensation, bindings[b].compensation)
  }

  ghost predicate RackAligned<S(!new)>(w: World<S>, n: nat, post: bool, state: RackState<S>, e: int)
    requires w.schedule.WellFormed() && n < |w.schedule.nodes|
  {
    var rack := w.schedule.nodes[n].RackAt(post);
    assert w.schedule.NodeInPlace(n);
    && e >= w.entry
    && RackReady(rack.slots, state.instances, w.entry, RackInput(w, n, post, e - w.entry), AuxHistory(w, n, post, e - w.entry))
    && |state.lanes| == |rack.bindings|
    && forall j :: 0 <= j < |rack.bindings| ==> LaneSetAligned(w, n, rack.bindings[j], rack.buses[j], state.lanes[j], e)
  }

  /** Snapshots of the ports of all nodes before `n` for the block at `e`. */
  ghost predicate SnapshotsTaken<S(!new)>(w: World<S>, snapshots: seq<seq<Frame>>, n: nat, e: int, frames: nat)
    requires w.schedule.WellFormed() && n <= |w.schedule.nodes|
  {
    && |snapshots| == |w.schedule.sidechainSources|
    && forall s :: 0 <= s < |snapshots| && w.schedule.sidechainSources[s].node < n ==>
         snapshots[s] == PortWindow(w, w.schedule.sidechainSources[s].node, w.schedule.sidechainSources[s].port, e, frames)
  }

  /** Mixed lanes deliver the auxiliary bus of the stream. */
  lemma {:induction false} MixedLaneIsBus<S(!new)>(w: World<S>, n: nat, post: bool, j: nat, lanes: seq<seq<Frame>>, snapshots: seq<seq<Frame>>,
                                                   hi: nat, bus: nat, e: int, frames: nat, i: nat)
    requires w.schedule.WellFormed() && n < |w.schedule.nodes| && i < frames
    requires SnapshotsTaken(w, snapshots, n, e, frames)
    requires j < |w.schedule.nodes[n].RackAt(post).slots| == |w.schedule.nodes[n].RackAt(post).bindings| == |w.schedule.nodes[n].RackAt(post).buses|
    requires w.schedule.RackInPlace(n, w.schedule.nodes[n].RackAt(post))
    requires LaneSetAligned(w, n, w.schedule.nodes[n].RackAt(post).bindings[j], w.schedule.nodes[n].RackAt(post).buses[j], lanes, e)
    requires LanesFit(w.schedule.nodes[n].RackAt(post).bindings[j], lanes, snapshots, frames)
    requires hi <= |w.schedule.nodes[n].RackAt(post).bindings[j]|
    ensures MixedLane(w.schedule.nodes[n].RackAt(post).bindings[j], lanes, snapshots, w.schedule.channels, hi, bus,
                      e - w.schedule.nodes[n].RackAt(post).slots[j].inputDelay, i)
            == SumBindings(w, n, post, j, hi, bus, e + i)
    decreases hi
  {
    hide PortAt, SnapshotsTaken, LaneSetAligned;
    if hi > 0 {
      MixedLaneIsBus(w, n, post, j, lanes, snapshots, hi - 1, bus, e, frames, i);
      var rack := w.schedule.nodes[n].RackAt(post);
      assert w.schedule.BindingInPlace(n, rack.bindings[j][hi - 1], rack.buses[j]);
      LaneEmits(w, n, rack.bindings[j], rack.buses[j], lanes, snapshots, hi - 1, e, frames, i);
    }
  }

  /** What leaves the lane of one binding is its source port, late by its compensation. */
  lemma LaneEmits<S(!new)>(w: World<S>, n: nat, bindings: seq<Binding>, buses: nat, lanes: seq<seq<Frame>>, snapshots: seq<seq<Frame>>,
                           b: nat, e: int, frames: nat, i: nat)
    requires w.schedule.WellFormed() && n < |w.schedule.nodes| && i < frames && b < |bindings| && w.schedule.BindingInPlace(n, bindings[b], buses)
    requires SnapshotsTaken(w, snapshots, n, e, frames) && LanesFit(bindings, lanes, snapshots, frames)
    requires forall c :: 0 <= c < |bindings| ==> w.schedule.BindingInPlace(n, bindings[c], buses)
    requires LaneSetAligned(w, n, bindings, buses, lanes, e)
    ensures var source := w.schedule.sidechainSources[bindings[b].sourceBuffer];
            Delay.Emitted(lanes[b], snapshots[bindings[b].sourceBuffer])[i] == PortAt(w, source.node, source.port, e + i - bindings[b].compensation)
  {
    hide PortAt;
    var source := w.schedule.sidechainSources[bindings[b].sourceBuffer];
    PortDelayed(w, source.node, source.port, bindings[b].compensation, e, frames);
  }

  lemma LanesFitHere<S(!new)>(w: World<S>, n: nat, post: bool, state: RackState<S>, snapshots: seq<seq<Frame>>, e: int, frames: nat)
    requires w.schedule.WellFormed() && n < |w.schedule.nodes|
    requires RackAligned(w, n, post, state, e) && SnapshotsTaken(w, snapshots, n, e, frames)
    ensures w.schedule.RackInPlace(n, w.schedule.nodes[n].RackAt(post))
    ensures AllLanesFit(w.schedule.nodes[n].RackAt(post), state.lanes, snapshots, frames)
  {
    hide PortAt, RackInput, AuxHistory;
    var rack := w.schedule.nodes[n].RackAt(post);
    assert w.schedule.NodeInPlace(n);
    forall j | 0 <= j < |state.lanes|
      ensures LanesFit(rack.bindings[j], state.lanes[j], snapshots, frames)
    {
      assert LaneSetAligned(w, n, rack.bindings[j], rack.buses[j], state.lanes[j], e);
      forall b | 0 <= b < |rack.bindings[j]|
        ensures rack.bindings[j][b].sourceBuffer < |snapshots| && |snapshots[rack.bindings[j][b].sourceBuffer]| == frames
      {
        assert w.schedule.BindingInPlace(n, rack.bindings[j][b], rack.buses[j]);
      }
    }
  }

  /** The auxiliary input of this block extends the auxiliary history of the epoch. */
  lemma AuxContinues<S(!new)>(w: World<S>, n: nat, post: bool, state: RackState<S>, snapshots: seq<seq<Frame>>, e: int, frames: nat)
    requires w.schedule.WellFormed() && n < |w.schedule.nodes|
    requires RackAligned(w, n, post, state, e) && SnapshotsTaken(w, snapshots, n, e, frames)
    requires AllLanesFit(w.schedule.nodes[n].RackAt(post), state.lanes, snapshots, frames)
    ensures Joined(AuxHistory(w, n, post, e - w.entry), RackAux(w.schedule.nodes[n].RackAt(post), state.lanes, snapshots, w.schedule.channels, e, frames))
            == AuxHistory(w, n, post, e + frames - w.entry)
  {
    hide PortAt, RackInput;
    var rack := w.schedule.nodes[n].RackAt(post);
    var past := AuxHistory(w, n, post, e - w.entry);
    var block := RackAux(rack, state.lanes, snapshots, w.schedule.channels, e, frames);
    var whole := AuxHistory(w, n, post, e + frames - w.entry);
    assert w.schedule.NodeInPlace(n);
    forall j | 0 <= j < |rack.slots|
      ensures past[j] + block[j] == whole[j]
    {
      AuxBlockContinues(w, n, post, j, state.lanes[j], snapshots, e, frames);
    }
  }

  lemma AuxBlockContinues<S(!new)>(w: World<S>, n: nat, post: bool, j: nat, lanes: seq<seq<Frame>>, snapshots: seq<seq<Frame>>, e: int, frames: nat)
    requires w.schedule.WellFormed() && n < |w.schedule.nodes| && e >= w.entry
    requires SnapshotsTaken(w, snapshots, n, e, frames)
    requires w.schedule.RackInPlace(n, w.schedule.nodes[n].RackAt(post)) && j < |w.schedule.nodes[n].RackAt(post).slots|
    requires LaneSetAligned(w, n, w.schedule.nodes[n].RackAt(post).bindings[j], w.schedule.nodes[n].RackAt(post).buses[j], lanes, e)
    requires LanesFit(w.schedule.nodes[n].RackAt(post).bindings[j], lanes, snapshots, frames)
    ensures var rack := w.schedule.nodes[n].RackAt(post);
            AuxHistory(w, n, post, e - w.entry)[j]
            + MixedBlock(rack.bindings[j], rack.buses[j], lanes, snapshots, w.schedule.channels, e - rack.slots[j].inputDelay, frames)
            == AuxHistory(w, n, post, e + frames - w.entry)[j]
  {
    hide PortAt, SumBindings, MixedLane, SnapshotsTaken, LaneSetAligned;
    var rack := w.schedule.nodes[n].RackAt(post);
    var block := MixedBlock(rack.bindings[j], rack.buses[j], lanes, snapshots, w.schedule.channels, e - rack.slots[j].inputDelay, frames);
    forall i | 0 <= i < frames
      ensures block[i] == AuxAt(w, n, post, j, e + i)
    {
      forall bus | 0 <= bus < rack.buses[j]
        ensures block[i][bus] == AuxAt(w, n, post, j, e + i)[bus]
      {
        MixedLaneIsBus(w, n, post, j, lanes, snapshots, |rack.bindings[j]|, bus, e, frames, i);
      }
    }
  }

  ghost predicate IsRackBlock<S(!new)>(w: World<S>, n: nat, post: bool, e: int, block: seq<Frame>)
    requires w.schedule.WellFormed() && n < |w.schedule.nodes|
  {
    forall i :: 0 <= i < |block| ==> block[i] == RackInputAt(w, n, post, e + i)
  }

  /** A complete successful run of a rack is, frame by frame, the stream of its output. */
  lemma RackRunIsStream<S(!new)>(w: World<S>, n: nat, post: bool, length: nat, i: nat)
    requires w.schedule.WellFormed() && n < |w.schedule.nodes| && i < length
    requires Stage(w.schedule.nodes[n].RackAt(post).slots, |w.schedule.nodes[n].RackAt(post).slots|, w.entry,
                   RackInput(w, n, post, length), AuxHistory(w, n, post, length)).Some?
    ensures |Stage(w.schedule.nodes[n].RackAt(post).slots, |w.schedule.nodes[n].RackAt(post).slots|, w.entry,
                   RackInput(w, n, post, length), AuxHistory(w, n, post, length)).value| == length
    ensures RackOutputAt(w, n, post, w.entry + i)
            == Stage(w.schedule.nodes[n].RackAt(post).slots, |w.schedule.nodes[n].RackAt(post).slots|, w.entry,
                     RackInput(w, n, post, length), AuxHistory(w, n, post, length)).value[i]
  {
    hide RackInputAt, AuxAt, Stage, StreamingRack;
    assert w.schedule.NodeInPlace(n);
    var slots := w.schedule.nodes[n].RackAt(post).slots;
    var input, aux := RackInput(w, n, post, length), AuxHistory(w, n, post, length);
    StageAt(slots, w.entry, input, aux, i + 1);
    assert input[..i + 1] == RackInput(w, n, post, i + 1);
    HistoryPrefix(w, n, post, length, i + 1);
  }

  lemma HistoryPrefix<S(!new)>(w: World<S>, n: nat, post: bool, length: nat, i: nat)
    requires w.schedule.WellFormed() && n < |w.schedule.nodes| && i <= length
    ensures Taken(AuxHistory(w, n, post, length), i) == AuxHistory(w, n, post, i)
  {
    hide AuxAt;
    var whole, head := AuxHistory(w, n, post, length), AuxHistory(w, n, post, i);
    forall j | 0 <= j < |whole|
      ensures whole[j][..i] == head[j]
    {}
  }

  /** One block through an aligned rack delivers the stream and leaves the rack aligned behind the block. */
  lemma RackBlock<S(!new)>(w: World<S>, n: nat, post: bool, before: RackState<S>, after: RackState<S>,
                           snapshots: seq<seq<Frame>>, e: int, block: seq<Frame>, pcm: seq<Frame>)
    requires w.schedule.WellFormed() && n < |w.schedule.nodes|
    requires RackAligned(w, n, post, before, e) && SnapshotsTaken(w, snapshots, n, e, |block|)
    requires IsRackBlock(w, n, post, e, block)
    requires AllLanesFit(w.schedule.nodes[n].RackAt(post), before.lanes, snapshots, |block|)
    requires var rack := w.schedule.nodes[n].RackAt(post);
             var main, aux := RackInput(w, n, post, e - w.entry), AuxHistory(w, n, post, e - w.entry);
             var auxBlock := RackAux(rack, before.lanes, snapshots, w.schedule.channels, e, |block|);
             && RunContinues(rack, w.entry, main, aux, block, auxBlock, pcm)
             && RackReady(rack.slots, after.instances, w.entry, main + block, Joined(aux, auxBlock))
             && LanesAdvanced(rack, before.lanes, after.lanes, snapshots, |block|)
    ensures |pcm| == |block|
    ensures forall i :: 0 <= i < |pcm| ==> pcm[i] == RackOutputAt(w, n, post, e + i)
    ensures RackAligned(w, n, post, after, e + |block|)
  {
    hide PortAt, RackInputAt, AuxAt, RackReady, RackAux, Stage, RackOutputAt;
    var rack := w.schedule.nodes[n].RackAt(post);
    var length := e + |block| - w.entry;
    AuxContinues(w, n, post, before, snapshots, e, |block|);
    assert RackInput(w, n, post, e - w.entry) + block == RackInput(w, n, post, length);
    forall i | 0 <= i < |pcm|
      ensures pcm[i] == RackOutputAt(w, n, post, e + i)
    {
      RackRunIsStream(w, n, post, length, e - w.entry + i);
    }
    LanesMoveOn(w, n, post, before, after, snapshots, e, |block|);
  }

  lemma LanesMoveOn<S(!new)>(w: World<S>, n: nat, post: bool, before: RackState<S>, after: RackState<S>, snapshots: seq<seq<Frame>>, e: int, frames: nat)
    requires w.schedule.WellFormed() && n < |w.schedule.nodes|
    requires RackAligned(w, n, post, before, e) && SnapshotsTaken(w, snapshots, n, e, frames)
    requires AllLanesFit(w.schedule.nodes[n].RackAt(post), before.lanes, snapshots, frames)
    requires LanesAdvanced(w.schedule.nodes[n].RackAt(post), before.lanes, after.lanes, snapshots, frames)
    ensures |after.lanes| == |w.schedule.nodes[n].RackAt(post).bindings|
    ensures w.schedule.RackInPlace(n, w.schedule.nodes[n].RackAt(post))
    ensures forall j :: 0 <= j < |after.lanes| ==>
              LaneSetAligned(w, n, w.schedule.nodes[n].RackAt(post).bindings[j], w.schedule.nodes[n].RackAt(post).buses[j], after.lanes[j], e + frames)
  {
    hide PortAt, RackReady, RackInput, AuxHistory;
    var rack := w.schedule.nodes[n].RackAt(post);
    assert w.schedule.NodeInPlace(n);
    forall j | 0 <= j < |after.lanes|
      ensures LaneSetAligned(w, n, rack.bindings[j], rack.buses[j], after.lanes[j], e + frames)
    {
      assert LaneSetAligned(w, n, rack.bindings[j], rack.buses[j], before.lanes[j], e);
      assert LaneAdvanced(rack.bindings[j], before.lanes[j], after.lanes[j], snapshots, frames);
      LaneSetMovesOn(w, n, rack.bindings[j], rack.buses[j], before.lanes[j], after.lanes[j], snapshots, e, frames);
    }
  }

  lemma LaneSetMovesOn<S(!new)>(w: World<S>, n: nat, bindings: seq<Binding>, buses: nat, before: seq<seq<Frame>>, after: seq<seq<Frame>>,
                                snapshots: seq<seq<Frame>>, e: int, frames: nat)
    requires w.schedule.WellFormed() && n < |w.schedule.nodes|
    requires forall b :: 0 <= b < |bindings| ==> w.schedule.BindingInPlace(n, bindings[b], buses)
    requires LaneSetAligned(w, n, bindings, buses, before, e) && SnapshotsTaken(w, snapshots, n, e, frames)
    requires LanesFit(bindings, before, snapshots, frames) && LaneAdvanced(bindings, before, after, snapshots, frames)
    ensures LaneSetAligned(w, n, bindings, buses, after, e + frames)
  {
    hide PortAt;
    forall b | 0 <= b < |bindings|
      ensures assert w.schedule.BindingInPlace(n, bindings[b], buses);
              var source := w.schedule.sidechainSources[bindings[b].sourceBuffer];
              after[b] == PortWindow(w, source.node, source.port, e + frames - bindings[b].compensation, bindings[b].compensation)
    {
      assert w.schedule.BindingInPlace(n, bindings[b], buses);
      var source := w.schedule.sidechainSources[bindings[b].sourceBuffer];
      PortDelayed(w, source.node, source.port, bindings[b].compensation, e, frames);
    }
  }

  // ------------------------------------------------------------------ contributions

  /** How many samples of the epoch before `e` the scope rack of a contribution has run. */
  ghost function ScopeLength<S(!new)>(w: World<S>, c: Contribution<S>, e: int): nat {
    var start := RackStart(w, c);
    var stop := if c.executionEnd.Some? then Min(e, c.executionEnd.value) else e;
    if stop <= start then 0 else stop - start
  }

  ghost predicate ScopeAligned<S(!new)>(w: World<S>, k: nat, state: RackState<S>, length: nat)
    requires w.schedule.WellFormed() && k < |w.schedule.contributions|
  {
    var c := w.schedule.contributions[k];
    assert w.schedule.ContributionInPlace(k);
    && RackReady(c.rack.slots, state.instances, RackStart(w, c), ScopeInput(w, k, length), SilentAux(c.rack, w.schedule.channels, length))
    && |state.lanes| == |c.rack.slots|
    && forall j :: 0 <= j < |state.lanes| ==> state.lanes[j] == []
  }

  ghost predicate ContributionAligned<S(!new)>(w: World<S>, k: nat, line: seq<Frame>, state: RackState<S>, e: int)
    requires w.schedule.WellFormed() && k < |w.schedule.contributions|
  {
    var c := w.schedule.contributions[k];
    && e >= w.entry
    && line == ContributionWindow(w, k, e - c.compensation, c.compensation)
    && ScopeAligned(w, k, state, ScopeLength(w, c, e))
  }

  /** A complete successful run of a scope rack is, frame by frame, what the contribution contributes. */
  lemma ScopeRunIsStream<S(!new)>(w: World<S>, k: nat, length: nat, i: nat)
    requires w.schedule.WellFormed() && k < |w.schedule.contributions| && i < length
    requires w.schedule.ContributionInPlace(k)
    requires Executes(w.schedule.contributions[k], RackStart(w, w.schedule.contributions[k]) + i)
    requires Stage(w.schedule.contributions[k].rack.slots, |w.schedule.contributions[k].rack.slots|, RackStart(w, w.schedule.contributions[k]),
                   ScopeInput(w, k, length), SilentAux(w.schedule.contributions[k].rack, w.schedule.channels, length)).Some?
    ensures var c := w.schedule.contributions[k];
            var out := Stage(c.rack.slots, |c.rack.slots|, RackStart(w, c), ScopeInput(w, k, length), SilentAux(c.rack, w.schedule.channels, length)).value;
            && |out| == length
            && ContributionAt(w, k, RackStart(w, c) + i) == Shape(out[i], c.editGain.At(RackStart(w, c) + i - c.sourceLatency - c.rackLatency))
  {
    hide SourceAt, Stage, StreamingRack;
    var c := w.schedule.contributions[k];
    var input, aux := ScopeInput(w, k, length), SilentAux(c.rack, w.schedule.channels, length);
    StageAt(c.rack.slots, RackStart(w, c), input, aux, i + 1);
    assert input[..i + 1] == ScopeInput(w, k, i + 1);
    SilentPrefix(c.rack, w.schedule.channels, length, i + 1);
  }

  lemma SilentPrefix<S(!new)>(rack: Rack<S>, channels: nat, length: nat, i: nat)
    requires |rack.buses| == |rack.slots| && i <= length
    ensures Taken(SilentAux(rack, channels, length), i) == SilentAux(rack, channels, i)
  {
    var whole, head := SilentAux(rack, channels, length), SilentAux(rack, channels, i);
    forall j | 0 <= j < |whole|
      ensures whole[j][..i] == head[j]
    {}
  }

  /** A rack without bindings hears silence on every auxiliary bus. */
  lemma UnboundAuxIsSilent<S(!new)>(rack: Rack<S>, lanes: seq<seq<seq<Frame>>>, snapshots: seq<seq<Frame>>, channels: nat, start: int, length: nat, frames: nat)
    requires AllLanesFit(rack, lanes, snapshots, frames)
    requires forall j :: 0 <= j < |rack.bindings| ==> rack.bindings[j] == []
    ensures Joined(SilentAux(rack, channels, length), RackAux(rack, lanes, snapshots, channels, start, frames)) == SilentAux(rack, channels, length + frames)
  {
    var past, block, whole := SilentAux(rack, channels, length), RackAux(rack, lanes, snapshots, channels, start, frames), SilentAux(rack, channels, length + frames);
    forall j | 0 <= j < |rack.slots|
      ensures past[j] + block[j] == whole[j]
    {
      forall i | 0 <= i < frames
        ensures block[j][i] == seq(rack.buses[j], _ => Silence(channels))
      {
        assert rack.bindings[j] == [];
      }
    }
  }

  /** The execution extent of a contribution inside one block, as offsets and count. */
  function ContributionExecutionFrames<S(!new)>(c: Contribution<S>, start: int, frames: nat): (range: Option<(nat, nat)>)
    ensures range.None? ==> forall e :: start <= e < start + frames ==> !Executes(c, e)
    ensures range.Some? ==>
              && range.value.1 > 0 && range.value.0 + range.value.1 <= frames
              && forall e :: start <= e < start + frames ==>
                   (Executes(c, e) <==> start + range.value.0 <= e < start + range.value.0 + range.value.1)
  {
    var executionStart := Max(start, c.start);
    var executionEnd := if c.executionEnd.None? then start + frames else Min(start + frames, c.executionEnd.value);
    if executionStart >= executionEnd then None else Some((executionStart - start, executionEnd - executionStart))
  }

  /** Block by block the execution extents tile the run of the scope rack without gap or overlap. */
  lemma ExecutionTiles<S(!new)>(w: World<S>, c: Contribution<S>, e: int, frames: nat)
    requires e >= w.entry
    ensures var range := ContributionExecutionFrames(c, e, frames);
            && (range.None? ==> ScopeLength(w, c, e + frames) == ScopeLength(w, c, e))
            && (range.Some? ==>
                  && e + range.value.0 == RackStart(w, c) + ScopeLength(w, c, e)
                  && ScopeLength(w, c, e + frames) == ScopeLength(w, c, e) + range.value.1)
  {}
}
