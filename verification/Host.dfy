/** The Processor Host: continuity of every hosted instance, auxiliary buses, and
    one block through one rack. */
module Host {
  import opened Frames
  import opened Graph
  import opened Processors
  import opened Schedule
  import Delay

  type Epoch = nat

  datatype HostedContinuity =
    | Stateless
    | Unentered
    | Failed
    | Pending(epoch: Epoch)
    | Active(epoch: Epoch, nextSample: int)

  datatype Hosted<!S> = Hosted(continuity: HostedContinuity, state: S)

  /** Instances of one rack and the delay lines of their sidechain bindings. */
  datatype RackState<!S> = RackState(instances: seq<Hosted<S>>, lanes: seq<seq<seq<Frame>>>)

  datatype Status =
    | Done
    | StateEntryRequired
    | PoisonedInstance
    | ProcessorFailed
    | SourceUnavailable
    | InvalidPreparedSchedule

  // ------------------------------------------------------------------ auxiliary buses

  /** The first `hi` bindings summed into `bus` at frame `i` of a block. */
  function MixedLane(bindings: seq<Binding>, lanes: seq<seq<Frame>>, snapshots: seq<seq<Frame>>, channels: nat,
                     hi: nat, bus: nat, start: int, i: nat): Frame
    requires hi <= |bindings| == |lanes|
    requires forall b :: 0 <= b < |bindings| ==> bindings[b].sourceBuffer < |snapshots| && i < |snapshots[bindings[b].sourceBuffer]|
    decreases hi
  {
    if hi == 0 then Silence(channels) else
    var before := MixedLane(bindings, lanes, snapshots, channels, hi - 1, bus, start, i);
    var binding := bindings[hi - 1];
    if binding.bus != bus then before else
    Add(before, Scale(Delay.Emitted(lanes[hi - 1], snapshots[binding.sourceBuffer])[i], binding.gain.At(start + i)))
  }

  ghost predicate LanesFit(bindings: seq<Binding>, lanes: seq<seq<Frame>>, snapshots: seq<seq<Frame>>, frames: nat) {
    && |lanes| == |bindings|
    && forall b :: 0 <= b < |bindings| ==> bindings[b].sourceBuffer < |snapshots| && |snapshots[bindings[b].sourceBuffer]| == frames
  }

  ghost function MixedBlock(bindings: seq<Binding>, buses: nat, lanes: seq<seq<Frame>>, snapshots: seq<seq<Frame>>, channels: nat,
                            start: int, frames: nat): (block: seq<AuxFrame>)
    requires LanesFit(bindings, lanes, snapshots, frames)
    ensures |block| == frames
  {
    seq(frames, i requires 0 <= i < frames =>
      seq(buses, bus requires 0 <= bus < buses => MixedLane(bindings, lanes, snapshots, channels, |bindings|, bus, start, i)))
  }

  /** Push every snapshot through its lane and sum the delayed, gained lanes into their buses. */
  method PrepareAuxiliary(bindings: seq<Binding>, buses: nat, lanes: seq<seq<Frame>>, snapshots: seq<seq<Frame>>, channels: nat,
                          start: int, frames: nat)
    returns (block: seq<AuxFrame>, advanced: seq<seq<Frame>>)
    requires LanesFit(bindings, lanes, snapshots, frames)
    ensures block == MixedBlock(bindings, buses, lanes, snapshots, channels, start, frames)
    ensures |advanced| == |lanes|
    ensures forall b :: 0 <= b < |lanes| ==> advanced[b] == Delay.Retained(lanes[b], snapshots[bindings[b].sourceBuffer])
  {
    advanced := lanes;
    block := seq(frames, i requires 0 <= i < frames => seq(buses, bus requires 0 <= bus < buses => Silence(channels)));
    for b := 0 to |bindings|
      invariant |advanced| == |lanes| && |block| == frames
      invariant forall j :: 0 <= j < b ==> advanced[j] == Delay.Retained(lanes[j], snapshots[bindings[j].sourceBuffer])
      invariant forall j :: b <= j < |lanes| ==> advanced[j] == lanes[j]
      invariant forall i :: 0 <= i < frames ==>
                  block[i] == seq(buses, bus requires 0 <= bus < buses => MixedLane(bindings, lanes, snapshots, channels, b, bus, start, i))
    {
      var binding := bindings[b];
      var source := snapshots[binding.sourceBuffer];
      var delayed := Delay.Emitted(lanes[b], source);
      advanced := advanced[b := Delay.Retained(lanes[b], source)];
      block := seq(frames, i requires 0 <= i < frames && |block| == frames =>
        seq(buses, bus requires 0 <= bus < buses =>
          var before := if bus < |block[i]| then block[i][bus] else Silence(channels);
          if binding.bus != bus then before else Add(before, Scale(delayed[i], binding.gain.At(start + i)))));
    }
  }

  // ------------------------------------------------------------------ one block through one rack

  /** Instance `j` is ready to continue the history `main` of a rack entered at `start`:
      a declared state is pending before the first block and otherwise stands at the
      next signal sample holding exactly that history. A failed instance stays failed. */
  ghost predicate Ready<S(!new)>(slots: seq<Slot<S>>, j: nat, instance: Hosted<S>, start: int, main: seq<Frame>, aux: seq<seq<AuxFrame>>)
    requires j < |slots| == |aux|
  {
    var p := slots[j].processor;
    match instance.continuity
    case Failed => true
    case Unentered => false
    case Stateless => !p.requiresStateEntry && (|main| > 0 ==> SlotHolds(slots, j, instance.state, start, main, aux))
    case Pending(_) => p.requiresStateEntry && |main| == 0
    case Active(_, next) =>
      && p.requiresStateEntry
      && next == start + |main| - slots[j].inputDelay
      && (if |main| == 0 then p.enter(start - slots[j].inputDelay) == Some(instance.state)
          else SlotHolds(slots, j, instance.state, start, main, aux))
  }

  ghost predicate RackReady<S(!new)>(slots: seq<Slot<S>>, instances: seq<Hosted<S>>, start: int, main: seq<Frame>, aux: seq<seq<AuxFrame>>) {
    && |instances| == |slots| == |aux|
    && AuxLengths(aux, |main|)
    && forall j :: 0 <= j < |slots| ==> Ready(slots, j, instances[j], start, main, aux)
  }

  /** Entering before the first frame, or standing ready after earlier ones, an instance holds its history. */
  lemma EnteredHolds<S(!new)>(slots: seq<Slot<S>>, j: nat, state: S, start: int, main: seq<Frame>, aux: seq<seq<AuxFrame>>)
    requires StreamingRack(slots) && j < |slots| == |aux| && AuxLengths(aux, |main|)
    requires Stage(slots, j, start, main, aux).Some? && |Stage(slots, j, start, main, aux).value| == |main|
    requires if |main| > 0 then SlotHolds(slots, j, state, start, main, aux)
             else slots[j].processor.requiresStateEntry ==> slots[j].processor.enter(start - slots[j].inputDelay) == Some(state)
    ensures SlotHolds(slots, j, state, start, main, aux)
  {
    if |main| == 0 {
      var p, begin := slots[j].processor, start - slots[j].inputDelay;
      assert IdlesOnEmpty(p, Entered(p, begin).value, begin);
    }
  }

  /** One processor of a rack continues the run of the whole rack. */
  lemma StageContinues<S(!new)>(slots: seq<Slot<S>>, j: nat, state: S, start: int, main: seq<Frame>, aux: seq<seq<AuxFrame>>,
                                block: seq<Frame>, auxBlock: seq<seq<AuxFrame>>, pcm: seq<Frame>)
    requires StreamingRack(slots) && j < |slots| == |aux| == |auxBlock|
    requires AuxLengths(aux, |main|) && AuxLengths(auxBlock, |block|)
    requires SlotHolds(slots, j, state, start, main, aux)
    requires Stage(slots, j, start, main + block, Joined(aux, auxBlock)) == Some(Stage(slots, j, start, main, aux).value + pcm)
    requires |Stage(slots, j, start, main, aux).value| == |main| && |pcm| == |block|
    ensures var result := slots[j].processor.process(state, start - slots[j].inputDelay + |main|, pcm, auxBlock[j]);
            result.Some? ==>
              && |result.value.1| == |block|
              && SlotHolds(slots, j, result.value.0, start, main + block, Joined(aux, auxBlock))
              && Stage(slots, j + 1, start, main, aux).Some?
              && |Stage(slots, j + 1, start, main, aux).value| == |main|
              && Stage(slots, j + 1, start, main + block, Joined(aux, auxBlock)) == Some(Stage(slots, j + 1, start, main, aux).value + result.value.1)
  {
    var before := Stage(slots, j, start, main, aux).value;
    Continue(slots[j].processor, state, start - slots[j].inputDelay, before, aux[j], pcm, auxBlock[j]);
    StageLength(slots, j + 1, start, main, aux);
  }

  ghost predicate AllLanesFit<S>(rack: Rack<S>, lanes: seq<seq<seq<Frame>>>, snapshots: seq<seq<Frame>>, frames: nat) {
    && |rack.bindings| == |rack.buses| == |rack.slots| == |lanes|
    && forall j :: 0 <= j < |lanes| ==> LanesFit(rack.bindings[j], lanes[j], snapshots, frames)
  }

  /** What every processor of the rack will see on its auxiliary buses in this block. */
  ghost function RackAux<S>(rack: Rack<S>, lanes: seq<seq<seq<Frame>>>, snapshots: seq<seq<Frame>>, channels: nat, start: int, frames: nat)
    : (aux: seq<seq<AuxFrame>>)
    requires AllLanesFit(rack, lanes, snapshots, frames)
    ensures |aux| == |rack.slots| && AuxLengths(aux, frames)
  {
    seq(|rack.slots|, j requires 0 <= j < |rack.slots| =>
      MixedBlock(rack.bindings[j], rack.buses[j], lanes[j], snapshots, channels, start - rack.slots[j].inputDelay, frames))
  }

  ghost predicate LanesAdvanced<S>(rack: Rack<S>, lanes: seq<seq<seq<Frame>>>, after: seq<seq<seq<Frame>>>, snapshots: seq<seq<Frame>>, frames: nat)
    requires AllLanesFit(rack, lanes, snapshots, frames)
  {
    && |after| == |lanes|
    && forall j :: 0 <= j < |lanes| ==> LaneAdvanced(rack.bindings[j], lanes[j], after[j], snapshots, frames)
  }

  ghost predicate LaneAdvanced(bindings: seq<Binding>, lanes: seq<seq<Frame>>, after: seq<seq<Frame>>, snapshots: seq<seq<Frame>>, frames: nat)
    requires LanesFit(bindings, lanes, snapshots, frames)
  {
    && |after| == |lanes|
    && forall b :: 0 <= b < |lanes| ==> after[b] == Delay.Retained(lanes[b], snapshots[bindings[b].sourceBuffer])
  }

  /** Make sure one instance may process a block that begins at `signalStart`,
      entering it first when it is still pending. */
  method EnsureEntered<S(!new)>(slot: Slot<S>, instance: Hosted<S>, signalStart: int) returns (status: Status, entered: Hosted<S>)
    ensures status.Done? ==>
              && (instance.continuity.Stateless? ==> !slot.processor.requiresStateEntry && entered == instance)
              && (instance.continuity.Active? ==> instance.continuity.nextSample == signalStart && entered == instance)
              && (instance.continuity.Pending? ==>
                    && slot.processor.enter(signalStart) == Some(entered.state)
                    && entered.continuity == HostedContinuity.Active(instance.continuity.epoch, signalStart))
              && !instance.continuity.Failed? && !instance.continuity.Unentered?
    ensures status.InvalidPreparedSchedule? <==>
              || (instance.continuity.Stateless? && slot.processor.requiresStateEntry)
              || (instance.continuity.Active? && instance.continuity.nextSample != signalStart)
    ensures status.StateEntryRequired? <==> instance.continuity.Unentered?
    ensures status.PoisonedInstance? <==> instance.continuity.Failed?
    ensures status.ProcessorFailed? <==> instance.continuity.Pending? && slot.processor.enter(signalStart).None?
    ensures !status.SourceUnavailable?
    ensures !status.Done? && instance.continuity.Pending? ==> entered.continuity.Failed?
    ensures !status.Done? && !instance.continuity.Pending? ==> entered == instance
  {
    match instance.continuity
    case Stateless =>
      return if slot.processor.requiresStateEntry then InvalidPreparedSchedule else Done, instance;
    case Unentered =>
      return StateEntryRequired, instance;
    case Failed =>
      return PoisonedInstance, instance;
    case Pending(epoch) =>
      var state := slot.processor.enter(signalStart);
      if state.None? {
        return ProcessorFailed, instance.(continuity := HostedContinuity.Failed);
      }
      return Done, Hosted(HostedContinuity.Active(epoch, signalStart), state.value);
    case Active(_, next) =>
      return if next != signalStart then InvalidPreparedSchedule else Done, instance;
  }

  /** A processor that refuses to be entered cannot run at all. */
  lemma EntryFails<S(!new)>(p: Processor<S>, start: int)
    requires p.requiresStateEntry && p.enter(start).None?
    ensures !AlwaysRuns(p)
  {
    assert !RunsOn(p, start, [], []);
  }

  /** A processor that fails while it holds its history fails on the longer run. */
  lemma CallFails<S(!new)>(slots: seq<Slot<S>>, j: nat, state: S, start: int, main: seq<Frame>, aux: seq<seq<AuxFrame>>, pcm: seq<Frame>, auxPcm: seq<AuxFrame>)
    requires StreamingRack(slots) && j < |slots| == |aux| && AuxLengths(aux, |main|) && |pcm| == |auxPcm|
    requires SlotHolds(slots, j, state, start, main, aux) && |Stage(slots, j, start, main, aux).value| == |main|
    requires slots[j].processor.process(state, start - slots[j].inputDelay + |main|, pcm, auxPcm).None?
    ensures !AlwaysRuns(slots[j].processor)
  {
    var before := Stage(slots, j, start, main, aux).value;
    Continue(slots[j].processor, state, start - slots[j].inputDelay, before, aux[j], pcm, auxPcm);
    assert !RunsOn(slots[j].processor, start - slots[j].inputDelay, before + pcm, aux[j] + auxPcm);
  }

  /** One processor of the rack: enter it if pending, gather its auxiliary buses, process in place, advance its continuity. */
  method ProcessSlot<S(!new)>(rack: Rack<S>, j: nat, instance: Hosted<S>, lanes: seq<seq<Frame>>, start: int, pcm: seq<Frame>,
                              snapshots: seq<seq<Frame>>, channels: nat,
                              ghost entry: int, ghost main: seq<Frame>, ghost aux: seq<seq<AuxFrame>>,
                              ghost block: seq<Frame>, ghost auxBlock: seq<seq<AuxFrame>>)
    returns (status: Status, processed: seq<Frame>, after: Hosted<S>, advanced: seq<seq<Frame>>)
    requires StreamingRack(rack.slots) && j < |rack.slots| == |rack.bindings| == |rack.buses| == |aux| == |auxBlock|
    requires AuxLengths(aux, |main|) && AuxLengths(auxBlock, |block|) && |pcm| == |block| && start == entry + |main|
    requires Ready(rack.slots, j, instance, entry, main, aux)
    requires Stage(rack.slots, j, entry, main, aux).Some? && |Stage(rack.slots, j, entry, main, aux).value| == |main|
    requires Stage(rack.slots, j, entry, main + block, Joined(aux, auxBlock)) == Some(Stage(rack.slots, j, entry, main, aux).value + pcm)
    requires LanesFit(rack.bindings[j], lanes, snapshots, |pcm|)
    requires auxBlock[j] == MixedBlock(rack.bindings[j], rack.buses[j], lanes, snapshots, channels, start - rack.slots[j].inputDelay, |pcm|)
    ensures status.Done? || status.ProcessorFailed? || status.PoisonedInstance?
    ensures status.PoisonedInstance? ==> instance.continuity.Failed? && after == instance
    ensures status.ProcessorFailed? ==> after.continuity.Failed? && !AlwaysRuns(rack.slots[j].processor)
    ensures status.Done? ==> !instance.continuity.Failed?
    ensures |advanced| == |lanes| && forall b :: 0 <= b < |lanes| ==> |advanced[b]| == |lanes[b]|
    ensures !status.Done? ==> after == instance || after.continuity.Failed?
    ensures status.Done? ==>
              && |processed| == |block| && !after.continuity.Failed?
              && Ready(rack.slots, j, after, entry, main + block, Joined(aux, auxBlock))
              && LaneAdvanced(rack.bindings[j], lanes, advanced, snapshots, |pcm|)
              && Stage(rack.slots, j + 1, entry, main, aux).Some?
              && |Stage(rack.slots, j + 1, entry, main, aux).value| == |main|
              && Stage(rack.slots, j + 1, entry, main + block, Joined(aux, auxBlock))
                 == Some(Stage(rack.slots, j + 1, entry, main, aux).value + processed)
  {
    hide Stage, SlotHolds, StreamingRack, MixedLane, AlwaysRuns;
    var slot := rack.slots[j];
    var signalStart := start - slot.inputDelay;
    processed, advanced := pcm, lanes;
    status, after := EnsureEntered(slot, instance, signalStart);
    if !status.Done? {
      if status.ProcessorFailed? {
        EntryFails(slot.processor, signalStart);
      }
      return;
    }
    ghost var entered := after;
    EnteredHolds(rack.slots, j, entered.state, entry, main, aux);
    var auxPcm;
    auxPcm, advanced := PrepareAuxiliary(rack.bindings[j], rack.buses[j], lanes, snapshots, channels, signalStart, |pcm|);
    var result := slot.processor.process(after.state, signalStart, pcm, auxPcm);
    if result.None? {
      CallFails(rack.slots, j, entered.state, entry, main, aux, pcm, auxBlock[j]);
      return ProcessorFailed, pcm, after.(continuity := HostedContinuity.Failed), advanced;
    }
    StageContinues(rack.slots, j, entered.state, entry, main, aux, block, auxBlock, pcm);
    processed := result.value.1;
    var continuity := if after.continuity.Active? then after.continuity.(nextSample := signalStart + |pcm|) else after.continuity;
    after := Hosted(continuity, result.value.0);
    ReadyBehind(rack.slots, j, entered, entry, main, aux, block, auxBlock, pcm, after);
  }

  /** Run one block through a rack. From ready instances the Host's own checks never
      fire, the output continues the run of the whole rack, and every instance is
      ready again behind the block. */
  method ProcessRack<S(!new)>(rack: Rack<S>, before: RackState<S>, start: int, block: seq<Frame>, snapshots: seq<seq<Frame>>, channels: nat,
                              ghost entry: int, ghost main: seq<Frame>, ghost aux: seq<seq<AuxFrame>>)
    returns (status: Status, pcm: seq<Frame>, after: RackState<S>)
    requires StreamingRack(rack.slots)
    requires RackReady(rack.slots, before.instances, entry, main, aux)
    requires AllLanesFit(rack, before.lanes, snapshots, |block|)
    requires start == entry + |main|
    ensures status.Done? || status.ProcessorFailed? || status.PoisonedInstance?
    ensures SameShape(rack, before, after)
    ensures status.PoisonedInstance? ==> !NoneFailed(before)
    ensures Moves(rack.slots, status, before, after)
    ensures status.ProcessorFailed? ==> Culprit(rack.slots, after)
    ensures status.Done? ==>
              var auxBlock := RackAux(rack, before.lanes, snapshots, channels, start, |block|);
              && RunContinues(rack, entry, main, aux, block, auxBlock, pcm)
              && RackReady(rack.slots, after.instances, entry, main + block, Joined(aux, auxBlock))
              && NoneFailed(after)
              && LanesAdvanced(rack, before.lanes, after.lanes, snapshots, |block|)
  {
    hide Ready, Stage, MixedBlock, RackAux, AlwaysRuns, RackBehind, RackReady, LaneAdvanced, LanesAdvanced, SameShape, Moves, Culprit, NoneFailed, AllLanesFit, StreamingRack;
    pcm, after := block, before;
    ReadyLengths(rack.slots, before.instances, entry, main, aux);
    ghost var slots := rack.slots;
    ghost var auxBlock := RackAux(rack, before.lanes, snapshots, channels, start, |block|);
    ghost var whole, wholeAux := main + block, Joined(aux, auxBlock);
    FirstStage(slots, entry, main, aux, block, auxBlock);
    NoSlotIsBehind(rack, before, entry, main, aux, whole, wholeAux, snapshots, |block|);
    for j := 0 to |rack.slots|
      invariant |pcm| == |block|
      invariant Stage(slots, j, entry, main, aux).Some? && |Stage(slots, j, entry, main, aux).value| == |main|
      invariant Stage(slots, j, entry, whole, wholeAux) == Some(Stage(slots, j, entry, main, aux).value + pcm)
      invariant RackBehind(rack, j, before, after, entry, whole, wholeAux, snapshots, |block|)
    {
      NextSlot(rack, j, before, after, entry, main, aux, whole, wholeAux, snapshots, channels, |block|);
      var instance, lane;
      status, pcm, instance, lane := ProcessSlot(rack, j, after.instances[j], after.lanes[j], start, pcm, snapshots, channels,
                                                 entry, main, aux, block, auxBlock);
      if !status.Done? {
        SlotStops(rack, j, before, after, entry, main, aux, whole, wholeAux, snapshots, |block|, status, instance, lane);
        return status, pcm, RackState(after.instances[j := instance], after.lanes[j := lane]);
      }
      SlotMoves(rack, j, before, after, entry, whole, wholeAux, snapshots, |block|, instance, lane);
      after := RackState(after.instances[j := instance], after.lanes[j := lane]);
    }
    status := Done;
    AllSlotsAreBehind(rack, before, after, entry, whole, wholeAux, snapshots, |block|);
  }

  /** The first `j` processors of a rack have run the block, the others have not begun it. */
  ghost predicate RackBehind<S(!new)>(rack: Rack<S>, j: nat, before: RackState<S>, h: RackState<S>, entry: int,
                                      whole: seq<Frame>, wholeAux: seq<seq<AuxFrame>>, snapshots: seq<seq<Frame>>, frames: nat)
    requires j <= |rack.slots| == |wholeAux| && AllLanesFit(rack, before.lanes, snapshots, frames)
  {
    && |h.instances| == |before.instances| == |rack.slots| && |h.lanes| == |before.lanes|
    && (forall i :: 0 <= i < j ==> Ready(rack.slots, i, h.instances[i], entry, whole, wholeAux))
    && (forall i :: 0 <= i < j ==> !h.instances[i].continuity.Failed? && !before.instances[i].continuity.Failed?)
    && (forall i :: 0 <= i < j ==> LaneAdvanced(rack.bindings[i], before.lanes[i], h.lanes[i], snapshots, frames))
    && (forall i :: 0 <= i < |h.lanes| ==> SameLengths(before.lanes[i], h.lanes[i]))
    && (forall i :: j <= i < |rack.slots| ==> h.instances[i] == before.instances[i] && h.lanes[i] == before.lanes[i])
  }

  lemma ReadyLengths<S(!new)>(slots: seq<Slot<S>>, instances: seq<Hosted<S>>, entry: int, main: seq<Frame>, aux: seq<seq<AuxFrame>>)
    requires RackReady(slots, instances, entry, main, aux)
    ensures |slots| == |aux| && AuxLengths(aux, |main|)
  {}

  lemma NoSlotIsBehind<S(!new)>(rack: Rack<S>, before: RackState<S>, entry: int, main: seq<Frame>, aux: seq<seq<AuxFrame>>,
                                whole: seq<Frame>, wholeAux: seq<seq<AuxFrame>>, snapshots: seq<seq<Frame>>, frames: nat)
    requires RackReady(rack.slots, before.instances, entry, main, aux) && |wholeAux| == |rack.slots| && AllLanesFit(rack, before.lanes, snapshots, frames)
    ensures RackBehind(rack, 0, before, before, entry, whole, wholeAux, snapshots, frames)
  {
    hide Ready, LaneAdvanced;
  }

  lemma NextSlot<S(!new)>(rack: Rack<S>, j: nat, before: RackState<S>, h: RackState<S>, entry: int, main: seq<Frame>, aux: seq<seq<AuxFrame>>,
                          whole: seq<Frame>, wholeAux: seq<seq<AuxFrame>>, snapshots: seq<seq<Frame>>, channels: nat, frames: nat)
    requires RackReady(rack.slots, before.instances, entry, main, aux)
    requires j < |rack.slots| == |wholeAux| && AllLanesFit(rack, before.lanes, snapshots, frames)
    requires RackBehind(rack, j, before, h, entry, whole, wholeAux, snapshots, frames)
    ensures |rack.bindings| == |rack.buses| == |rack.slots|
    ensures |h.instances| == |h.lanes| == |rack.slots| && h.instances[j] == before.instances[j] && h.lanes[j] == before.lanes[j]
    ensures Ready(rack.slots, j, h.instances[j], entry, main, aux) && LanesFit(rack.bindings[j], h.lanes[j], snapshots, frames)
    ensures var start := entry + |main|;
            RackAux(rack, before.lanes, snapshots, channels, start, frames)[j]
            == MixedBlock(rack.bindings[j], rack.buses[j], h.lanes[j], snapshots, channels, start - rack.slots[j].inputDelay, frames)
  {
    hide Ready, LaneAdvanced, MixedBlock;
  }

  lemma SlotMoves<S(!new)>(rack: Rack<S>, j: nat, before: RackState<S>, h: RackState<S>, entry: int,
                           whole: seq<Frame>, wholeAux: seq<seq<AuxFrame>>, snapshots: seq<seq<Frame>>, frames: nat, instance: Hosted<S>, lane: seq<seq<Frame>>)
    requires j < |rack.slots| == |wholeAux| == |h.instances| == |h.lanes| && AllLanesFit(rack, before.lanes, snapshots, frames)
    requires RackBehind(rack, j, before, h, entry, whole, wholeAux, snapshots, frames)
    requires Ready(rack.slots, j, instance, entry, whole, wholeAux) && !instance.continuity.Failed? && !h.instances[j].continuity.Failed?
    requires SameLengths(h.lanes[j], lane) && LanesFit(rack.bindings[j], h.lanes[j], snapshots, frames)
    requires LaneAdvanced(rack.bindings[j], h.lanes[j], lane, snapshots, frames)
    ensures RackBehind(rack, j + 1, before, RackState(h.instances[j := instance], h.lanes[j := lane]), entry, whole, wholeAux, snapshots, frames)
  {
    hide Ready, LaneAdvanced, SameLengths, LanesFit;
  }

  /** A processor that does not finish leaves the rack as it is, or failed where it stands. */
  lemma SlotStops<S(!new)>(rack: Rack<S>, j: nat, before: RackState<S>, h: RackState<S>, entry: int, main: seq<Frame>, aux: seq<seq<AuxFrame>>,
                           whole: seq<Frame>, wholeAux: seq<seq<AuxFrame>>, snapshots: seq<seq<Frame>>, frames: nat,
                           status: Status, instance: Hosted<S>, lane: seq<seq<Frame>>)
    requires RackReady(rack.slots, before.instances, entry, main, aux)
    requires j < |rack.slots| == |wholeAux| == |h.instances| == |h.lanes| && AllLanesFit(rack, before.lanes, snapshots, frames)
    requires RackBehind(rack, j, before, h, entry, whole, wholeAux, snapshots, frames)
    requires SameLengths(h.lanes[j], lane) && (instance == h.instances[j] || instance.continuity.Failed?)
    requires status.PoisonedInstance? ==> h.instances[j].continuity.Failed? && instance == h.instances[j]
    requires status.ProcessorFailed? ==> instance.continuity.Failed? && !AlwaysRuns(rack.slots[j].processor)
    requires status.ProcessorFailed? || status.PoisonedInstance?
    ensures var after := RackState(h.instances[j := instance], h.lanes[j := lane]);
            && SameShape(rack, before, after) && Moves(rack.slots, status, before, after)
            && (status.PoisonedInstance? ==> !NoneFailed(before)) && (status.ProcessorFailed? ==> Culprit(rack.slots, after))
  {
    hide Ready, LaneAdvanced, AlwaysRuns, SameLengths;
    StatelessKept(rack.slots, before.instances, h.instances[j := instance], entry, main, whole, aux, wholeAux, j);
  }

  lemma AllSlotsAreBehind<S(!new)>(rack: Rack<S>, before: RackState<S>, h: RackState<S>, entry: int,
                                   whole: seq<Frame>, wholeAux: seq<seq<AuxFrame>>, snapshots: seq<seq<Frame>>, frames: nat)
    requires |rack.slots| == |wholeAux| && AllLanesFit(rack, before.lanes, snapshots, frames) && AuxLengths(wholeAux, |whole|)
    requires RackBehind(rack, |rack.slots|, before, h, entry, whole, wholeAux, snapshots, frames)
    ensures SameShape(rack, before, h) && Moves(rack.slots, Done, before, h) && NoneFailed(h)
    ensures RackReady(rack.slots, h.instances, entry, whole, wholeAux) && LanesAdvanced(rack, before.lanes, h.lanes, snapshots, frames)
  {
    hide Ready, LaneAdvanced, SameLengths;
    StatelessReady(rack.slots, h.instances, entry, whole, wholeAux);
  }

  /** A failed instance stays failed. */
  ghost predicate KeepsFailures<S>(before: RackState<S>, after: RackState<S>) {
    && |after.instances| == |before.instances|
    && forall j :: 0 <= j < |before.instances| && before.instances[j].continuity.Failed? ==> after.instances[j].continuity.Failed?
  }

  /** Failures stay, and a new one comes only from a processor that failed in this very call and can fail. */
  ghost predicate Moves<S(!new)>(slots: seq<Slot<S>>, status: Status, before: RackState<S>, after: RackState<S>) {
    && KeepsFailures(before, after)
    && forall j :: 0 <= j < |slots| && j < |before.instances| && after.instances[j].continuity.Failed? && !before.instances[j].continuity.Failed? ==>
         status.ProcessorFailed? && !AlwaysRuns(slots[j].processor)
  }

  /** Some failed instance runs a processor that can fail. */
  ghost predicate Culprit<S(!new)>(slots: seq<Slot<S>>, state: RackState<S>) {
    exists j :: 0 <= j < |slots| && j < |state.instances| && state.instances[j].continuity.Failed? && !AlwaysRuns(slots[j].processor)
  }

  lemma CulpritFails<S(!new)>(slots: seq<Slot<S>>, state: RackState<S>)
    requires Culprit(slots, state)
    ensures !RackRuns(slots)
  {
    hide AlwaysRuns;
  }

  /** An instance that a state entry would not touch has failed. */
  ghost predicate RackStuck<S>(slots: seq<Slot<S>>, state: RackState<S>) {
    exists j :: 0 <= j < |slots| && j < |state.instances| && !slots[j].processor.requiresStateEntry && state.instances[j].continuity.Failed?
  }

  /** No processor without declared state ever fails. */
  ghost predicate StatelessRuns<S(!new)>(slots: seq<Slot<S>>) {
    forall j :: 0 <= j < |slots| && !slots[j].processor.requiresStateEntry ==> AlwaysRuns(slots[j].processor)
  }

  /** No processor with declared state ever fails. */
  ghost predicate StatefulRuns<S(!new)>(slots: seq<Slot<S>>) {
    forall j :: 0 <= j < |slots| && slots[j].processor.requiresStateEntry ==> AlwaysRuns(slots[j].processor)
  }

  /** Rendering never loosens a stuck rack, and only a failing processor without declared state makes it stuck. */
  lemma StuckMoves<S(!new)>(slots: seq<Slot<S>>, status: Status, before: RackState<S>, after: RackState<S>)
    requires Moves(slots, status, before, after)
    ensures RackStuck(slots, before) ==> RackStuck(slots, after)
    ensures !status.ProcessorFailed? || StatelessRuns(slots) ==> RackStuck(slots, after) == RackStuck(slots, before)
  {
    hide AlwaysRuns;
  }

  lemma WholeBefore<S(!new)>(slots: seq<Slot<S>>, status: Status, before: RackState<S>, after: RackState<S>)
    requires Moves(slots, status, before, after) && NoneFailed(after)
    ensures NoneFailed(before)
  {
    hide AlwaysRuns;
  }

  lemma StuckFailed<S>(slots: seq<Slot<S>>, state: RackState<S>)
    requires NoneFailed(state)
    ensures !RackStuck(slots, state)
  {}

  ghost predicate SameLengths(before: seq<seq<Frame>>, after: seq<seq<Frame>>) {
    |after| == |before| && forall b :: 0 <= b < |after| ==> |after[b]| == |before[b]|
  }

  ghost predicate NoneFailed<S>(state: RackState<S>) {
    forall j :: 0 <= j < |state.instances| ==> !state.instances[j].continuity.Failed?
  }

  /** Instances and lanes stay where they are, and an instance without declared state is either stateless or failed. */
  ghost predicate SameShape<S>(rack: Rack<S>, before: RackState<S>, after: RackState<S>) {
    && |after.instances| == |before.instances| == |rack.slots| && |after.lanes| == |before.lanes|
    && (forall j :: 0 <= j < |after.lanes| ==> SameLengths(before.lanes[j], after.lanes[j]))
    && (forall j :: 0 <= j < |after.instances| && !rack.slots[j].processor.requiresStateEntry ==>
          after.instances[j].continuity.Stateless? || after.instances[j].continuity.Failed?)
  }

  /** `pcm` is what the whole run of the rack adds for `block`. */
  ghost predicate RunContinues<S(!new)>(rack: Rack<S>, entry: int, main: seq<Frame>, aux: seq<seq<AuxFrame>>,
                                        block: seq<Frame>, auxBlock: seq<seq<AuxFrame>>, pcm: seq<Frame>)
    requires |rack.slots| == |aux| == |auxBlock|
  {
    && |pcm| == |block|
    && var out := Stage(rack.slots, |rack.slots|, entry, main + block, Joined(aux, auxBlock));
       out.Some? && |out.value| == |main| + |block| && out.value[|main|..] == pcm
  }

  lemma FirstStage<S(!new)>(slots: seq<Slot<S>>, entry: int, main: seq<Frame>, aux: seq<seq<AuxFrame>>, block: seq<Frame>, auxBlock: seq<seq<AuxFrame>>)
    requires |slots| == |aux| == |auxBlock|
    ensures Stage(slots, 0, entry, main, aux) == Some(main)
    ensures Stage(slots, 0, entry, main + block, Joined(aux, auxBlock)) == Some(main + block)
  {}

  lemma StatelessReady<S(!new)>(slots: seq<Slot<S>>, instances: seq<Hosted<S>>, entry: int, main: seq<Frame>, aux: seq<seq<AuxFrame>>)
    requires |slots| == |instances| == |aux|
    requires forall i :: 0 <= i < |slots| ==> Ready(slots, i, instances[i], entry, main, aux)
    ensures forall i :: 0 <= i < |slots| && !slots[i].processor.requiresStateEntry ==>
              instances[i].continuity.Stateless? || instances[i].continuity.Failed?
  {}

  lemma StatelessKept<S(!new)>(slots: seq<Slot<S>>, before: seq<Hosted<S>>, instances: seq<Hosted<S>>, entry: int,
                               main: seq<Frame>, whole: seq<Frame>, aux: seq<seq<AuxFrame>>, wholeAux: seq<seq<AuxFrame>>, j: nat)
    requires |slots| == |before| == |instances| == |aux| == |wholeAux| && j < |slots|
    requires forall i :: 0 <= i < |slots| ==> Ready(slots, i, before[i], entry, main, aux)
    requires forall i :: 0 <= i < j ==> Ready(slots, i, instances[i], entry, whole, wholeAux)
    requires forall i :: j < i < |slots| ==> instances[i] == before[i]
    requires instances[j] == before[j] || instances[j].continuity.Failed?
    ensures forall i :: 0 <= i < |slots| && !slots[i].processor.requiresStateEntry ==>
              instances[i].continuity.Stateless? || instances[i].continuity.Failed?
  {}

  /** Behind the block the instance is ready for the next one. */
  lemma ReadyBehind<S(!new)>(slots: seq<Slot<S>>, j: nat, instance: Hosted<S>, entry: int, main: seq<Frame>, aux: seq<seq<AuxFrame>>,
                             block: seq<Frame>, auxBlock: seq<seq<AuxFrame>>, pcm: seq<Frame>, after: Hosted<S>)
    requires StreamingRack(slots) && j < |slots| == |aux| == |auxBlock| && AuxLengths(auxBlock, |block|)
    requires Ready(slots, j, instance, entry, main, aux)
    requires !instance.continuity.Failed? && !instance.continuity.Pending?
    requires |pcm| == |block|
    requires var begin := entry + |main| - slots[j].inputDelay;
             var result := slots[j].processor.process(instance.state, begin, pcm, auxBlock[j]);
             && result.Some? && after.state == result.value.0
             && after.continuity == if instance.continuity.Active? then instance.continuity.(nextSample := begin + |block|) else instance.continuity
    requires SlotHolds(slots, j, after.state, entry, main + block, Joined(aux, auxBlock))
    ensures Ready(slots, j, after, entry, main + block, Joined(aux, auxBlock))
  {
    if |main + block| == 0 {
      assert IdlesOnEmpty(slots[j].processor, instance.state, entry - slots[j].inputDelay);
      assert pcm == [] && auxBlock[j] == [];
    }
  }
}
