/** One Session over a prepared schedule: delay lines, hosted processors and the position of the run. Entering an
    epoch, priming once and rendering block by block are stated against the stream of the epoch. */
module Session {
  import opened Frames
  import opened Graph
  import opened Processors
  import opened SourceFrames
  import opened Schedule
  import opened Host
  import opened Alignment
  import opened Render
  import opened Historyless

  const I64_MAX: int := 0x7FFF_FFFF_FFFF_FFFF
  const U64_MAX: nat := 0xFFFF_FFFF_FFFF_FFFF

  datatype Continuity =
    | Unentered
    | Active(epoch: Epoch, nextPublic: int, nextExecution: int, primed: bool)
    | Poisoned(epoch: Epoch)

  datatype RenderError =
    | BlockTooLarge
    | OutputSizeMismatch
    | BufferTooLarge
    | StateEntryRequired
    | ContinuityPoisoned(epoch: Epoch)
    | NonContiguousBlock(epoch: Epoch, expected: int, actual: int)
    | MeterSerialExhausted
    | ReusedContinuityEpoch(epoch: Epoch)
    | InvalidPreparedSchedule
    | ExecutionFailed(status: Status)

  /** What the execution of a call came to. */
  function StatusOf(error: Option<RenderError>): Status {
    if error.Some? && error.value.ExecutionFailed? then error.value.status else Done
  }

  /** What the entry checks of a render call decide before anything mutable is touched. */
  function Rejection<S(!new)>(s: Schedule<S>, continuity: Continuity, start: int, frames: nat, destination: nat): Option<RenderError> {
    if frames > s.maxBlock then Some(BlockTooLarge)
    else if destination != frames then Some(OutputSizeMismatch)
    else if start + frames >= 0x8000_0000_0000_0000 then Some(BufferTooLarge)
    else if !s.requiresStateEntry then (if s.lookahead != 0 then Some(RenderError.InvalidPreparedSchedule) else None)
    else match continuity
      case Unentered => Some(RenderError.StateEntryRequired)
      case Poisoned(epoch) => Some(ContinuityPoisoned(epoch))
      case Active(epoch, nextPublic, _, _) =>
        if nextPublic != start then Some(NonContiguousBlock(epoch, nextPublic, start)) else None
  }

  /** An epoch may not be entered twice in a row. */
  predicate Reused(continuity: Continuity, epoch: Epoch) {
    continuity != Continuity.Unentered && continuity.epoch == epoch
  }

  /** Continuity after an entry. */
  function AfterEntry<S(!new)>(s: Schedule<S>, before: Continuity, epoch: Epoch, start: int, succeeded: bool): Continuity {
    if Reused(before, epoch) then before
    else if !succeeded then Poisoned(epoch)
    else Continuity.Active(epoch, start, start, s.lookahead == 0)
  }

  /** One internal request. */
  datatype Request = Request(start: int, frames: nat)

  /** The requests tile the execution samples from `from` to `to` without gap or overlap. */
  ghost predicate Gapless(requests: seq<Request>, from: int, to: int)
    decreases |requests|
  {
    if |requests| == 0 then from == to else
    var last := requests[|requests| - 1];
    last.start + last.frames == to && Gapless(requests[..|requests| - 1], from, last.start)
  }

  lemma GaplessExtends(requests: seq<Request>, from: int, to: int, frames: nat)
    requires Gapless(requests, from, to)
    ensures Gapless(requests + [Request(to, frames)], from, to + frames)
  {
    assert (requests + [Request(to, frames)])[..|requests|] == requests;
  }

  // ------------------------------------------------------------------ state entry

  ghost predicate EntersSlot<S>(slot: Slot<S>, instance: Hosted<S>, epoch: Epoch, start: int, lazy: bool) {
    if !slot.processor.requiresStateEntry then instance.continuity.Stateless?
    else if lazy then instance.continuity == HostedContinuity.Pending(epoch)
    else
      && instance.continuity == HostedContinuity.Active(epoch, start - slot.inputDelay)
      && slot.processor.enter(start - slot.inputDelay) == Some(instance.state)
  }

  /** Every declared state of the rack admits an entry when the epoch begins at execution sample `start`. */
  ghost predicate RackEnters<S>(slots: seq<Slot<S>>, start: int) {
    forall j :: 0 <= j < |slots| && slots[j].processor.requiresStateEntry ==> slots[j].processor.enter(start - slots[j].inputDelay).Some?
  }

  ghost predicate NodeEnters<S(!new)>(s: Schedule<S>, n: nat, start: int)
    requires n < |s.nodes|
  {
    RackEnters(s.nodes[n].preRack.slots, start) && RackEnters(s.nodes[n].postRack.slots, start)
  }

  /** Every state that an entry at `start` enters at once admits it. Those of contributions wait for their first block. */
  ghost predicate PlanEnters<S(!new)>(s: Schedule<S>, start: int) {
    forall n :: 0 <= n < |s.nodes| ==> NodeEnters(s, n, start)
  }

  ghost predicate NodeStuck<S(!new)>(s: Schedule<S>, h: History<S>, n: nat) {
    && n < |s.nodes| && n < |h.preRacks| && n < |h.postRacks|
    && (RackStuck(s.nodes[n].preRack.slots, h.preRacks[n]) || RackStuck(s.nodes[n].postRack.slots, h.postRacks[n]))
  }

  ghost predicate ScopeStuck<S(!new)>(s: Schedule<S>, h: History<S>, k: nat) {
    k < |s.contributions| && k < |h.scopes| && RackStuck(s.contributions[k].rack.slots, h.scopes[k])
  }

  ghost predicate NodesStuck<S(!new)>(s: Schedule<S>, h: History<S>) {
    exists n :: NodeStuck(s, h, n)
  }

  ghost predicate ScopesStuck<S(!new)>(s: Schedule<S>, h: History<S>) {
    exists k :: ScopeStuck(s, h, k)
  }

  /** Some instance without declared state has failed, and no entry resets it. */
  ghost predicate Stuck<S(!new)>(s: Schedule<S>, h: History<S>) {
    NodesStuck(s, h) || ScopesStuck(s, h)
  }

  /** No processor of the plan without declared state ever fails. */
  ghost predicate StatelessPlanRuns<S(!new)>(s: Schedule<S>) {
    && (forall n :: 0 <= n < |s.nodes| ==> StatelessRuns(s.nodes[n].preRack.slots) && StatelessRuns(s.nodes[n].postRack.slots))
    && (forall k :: 0 <= k < |s.contributions| ==> StatelessRuns(s.contributions[k].rack.slots))
  }

  lemma NeedsNoHistory<S(!new)>(s: Schedule<S>)
    requires s.WellFormed() && !s.requiresStateEntry
    ensures s.Historyless() && s.lookahead == 0
  {}

  /** A plan without history is aligned wherever a block begins. */
  lemma HistorylessIsAligned<S(!new)>(w: World<S>, h: History<S>)
    requires w.schedule.WellFormed() && !w.schedule.requiresStateEntry && Shaped(w.schedule, h)
    ensures AllAligned(w, h, 0, |w.schedule.nodes|, w.entry)
  {
    hide Shaped, AllAligned, HistoryFresh, Schedule.WellFormed;
    HistorylessIsFresh(w.schedule, h, w.entry);
    FreshIsAligned(w, h);
  }

  lemma BlocksAreInstant<S(!new)>(w: World<S>, h: History<S>, end: int, pcm: seq<Frame>)
    requires w.schedule.WellFormed() && Shaped(w.schedule, h) && !w.schedule.requiresStateEntry
    requires AllAligned(w, h, 0, |w.schedule.nodes|, end) && NoInstanceFailed(h) && w.entry + |pcm| <= end
    requires forall i :: 0 <= i < |pcm| ==> pcm[i] == PublicAt(w, w.entry + i)
    ensures forall i :: 0 <= i < |pcm| ==> pcm[i] == InstantAt(w.schedule, w.signal, w.entry + i)
  {
    hide PublicAt, InstantAt, AllAligned, NoInstanceFailed, Shaped;
    NeedsNoHistory(w.schedule);
    forall i | 0 <= i < |pcm|
      ensures pcm[i] == InstantAt(w.schedule, w.signal, w.entry + i)
    {
      BlockIsInstant(w, h, end, w.entry + i);
    }
  }

  /** Rendering keeps a stuck plan stuck, and only a processor without declared state that fails makes it so. */
  lemma StuckPersists<S(!new)>(s: Schedule<S>, status: Status, before: History<S>, after: History<S>)
    requires HistoryMoves(s, status, before, after)
    ensures (NodesStuck(s, before) ==> NodesStuck(s, after)) && (Stuck(s, before) ==> Stuck(s, after))
    ensures !status.ProcessorFailed? || StatelessPlanRuns(s) ==> Stuck(s, after) == Stuck(s, before)
  {
    hide Moves, RackStuck, StatelessRuns;
    forall n | 0 <= n < |s.nodes|
      ensures NodeStuck(s, before, n) ==> NodeStuck(s, after, n)
      ensures !status.ProcessorFailed? || StatelessPlanRuns(s) ==> NodeStuck(s, after, n) == NodeStuck(s, before, n)
    {
      StuckMoves(s.nodes[n].preRack.slots, status, before.preRacks[n], after.preRacks[n]);
      StuckMoves(s.nodes[n].postRack.slots, status, before.postRacks[n], after.postRacks[n]);
    }
    forall k | 0 <= k < |s.contributions|
      ensures ScopeStuck(s, before, k) ==> ScopeStuck(s, after, k)
      ensures !status.ProcessorFailed? || StatelessPlanRuns(s) ==> ScopeStuck(s, after, k) == ScopeStuck(s, before, k)
    {
      StuckMoves(s.contributions[k].rack.slots, status, before.scopes[k], after.scopes[k]);
    }
  }

  lemma WholeIsNotStuck<S(!new)>(s: Schedule<S>, h: History<S>)
    requires NoInstanceFailed(h)
    ensures !Stuck(s, h)
  {}

  /** No processor with declared state ever fails. */
  ghost predicate StatefulPlanRuns<S(!new)>(s: Schedule<S>) {
    && (forall n :: 0 <= n < |s.nodes| ==> StatefulRuns(s.nodes[n].preRack.slots) && StatefulRuns(s.nodes[n].postRack.slots))
    && (forall k :: 0 <= k < |s.contributions| ==> StatefulRuns(s.contributions[k].rack.slots))
  }

  /** If only processors without declared state can fail, the failure of any of them is final. */
  lemma CulpritSticks<S(!new)>(s: Schedule<S>, h: History<S>)
    requires |h.preRacks| == |h.postRacks| == |s.nodes|
    requires PlanCulprit(s, h) && StatefulPlanRuns(s)
    ensures Stuck(s, h)
  {
    hide AlwaysRuns;
    if n :| 0 <= n < |s.nodes| && n < |h.preRacks| && Culprit(s.nodes[n].preRack.slots, h.preRacks[n]) {
      assert NodeStuck(s, h, n);
    } else if n :| 0 <= n < |s.nodes| && n < |h.postRacks| && Culprit(s.nodes[n].postRack.slots, h.postRacks[n]) {
      assert NodeStuck(s, h, n);
    } else {
      var k :| 0 <= k < |s.contributions| && k < |h.scopes| && Culprit(s.contributions[k].rack.slots, h.scopes[k]);
      assert ScopeStuck(s, h, k);
    }
  }

  /** What a processor that always runs admits. */
  lemma RunningEnters<S(!new)>(s: Schedule<S>, start: int)
    requires PlanRuns(s)
    ensures PlanEnters(s, start)
  {
    hide AlwaysRuns;
    forall n | 0 <= n < |s.nodes|
      ensures NodeEnters(s, n, start)
    {
      RunningRackEnters(s.nodes[n].preRack.slots, start);
      RunningRackEnters(s.nodes[n].postRack.slots, start);
    }
  }

  lemma RunningRackEnters<S(!new)>(slots: seq<Slot<S>>, start: int)
    requires RackRuns(slots)
    ensures RackEnters(slots, start)
  {
    forall j | 0 <= j < |slots| && slots[j].processor.requiresStateEntry
      ensures slots[j].processor.enter(start - slots[j].inputDelay).Some?
    {
      assert RunsOn(slots[j].processor, start - slots[j].inputDelay, [], []);
    }
  }

  /** Enter every declared state of one rack at its own signal sample, or leave it
      pending when the rack belongs to a contribution, which enters at its first block. */
  /** The processor does not admit the entry, and its instance is failed. */
  ghost predicate RefusesEntry<S>(slot: Slot<S>, instance: Hosted<S>, start: int) {
    slot.processor.requiresStateEntry && slot.processor.enter(start - slot.inputDelay).None? && instance.continuity == HostedContinuity.Failed
  }

  method EnterRack<S(!new)>(rack: Rack<S>, before: RackState<S>, epoch: Epoch, start: int, lazy: bool)
    returns (status: Status, after: RackState<S>)
    requires RackShaped(rack, before)
    ensures status.Done? || status.ProcessorFailed? || status.InvalidPreparedSchedule?
    ensures RackShaped(rack, after) && after.lanes == before.lanes
    ensures RackStuck(rack.slots, after) == RackStuck(rack.slots, before)
    ensures status.ProcessorFailed? ==> !lazy && !RackEnters(rack.slots, start)
    ensures status.ProcessorFailed? ==> exists j :: 0 <= j < |rack.slots| && RefusesEntry(rack.slots[j], after.instances[j], start)
    ensures status.Done? ==> forall j :: 0 <= j < |rack.slots| ==> EntersSlot(rack.slots[j], after.instances[j], epoch, start, lazy)
    ensures status.InvalidPreparedSchedule? ==> RackStuck(rack.slots, before)
  {
    var instances := before.instances;
    for j := 0 to |rack.slots|
      invariant |instances| == |before.instances|
      invariant forall i :: 0 <= i < j ==> EntersSlot(rack.slots[i], instances[i], epoch, start, lazy)
      invariant forall i :: j <= i < |instances| ==> instances[i] == before.instances[i]
      invariant forall i :: 0 <= i < |instances| && !rack.slots[i].processor.requiresStateEntry ==> instances[i] == before.instances[i]
    {
      var slot := rack.slots[j];
      if !slot.processor.requiresStateEntry {
        if !instances[j].continuity.Stateless? {
          return Status.InvalidPreparedSchedule, RackState(instances, before.lanes);
        }
      } else if lazy {
        instances := instances[j := instances[j].(continuity := HostedContinuity.Pending(epoch))];
      } else {
        var signalStart := start - slot.inputDelay;
        var state := slot.processor.enter(signalStart);
        if state.None? {
          instances := instances[j := instances[j].(continuity := HostedContinuity.Failed)];
          assert RefusesEntry(slot, instances[j], start);
          return ProcessorFailed, RackState(instances, before.lanes);
        }
        instances := instances[j := Hosted(HostedContinuity.Active(epoch, signalStart), state.value)];
      }
    }
    return Done, RackState(instances, before.lanes);
  }

  function Cleared(line: seq<Frame>, channels: nat): seq<Frame> {
    seq(|line|, _ => Silence(channels))
  }

  function ClearedLanes<S>(state: RackState<S>, channels: nat): RackState<S> {
    state.(lanes := seq(|state.lanes|, j requires 0 <= j < |state.lanes| =>
      seq(|state.lanes[j]|, b requires 0 <= b < |state.lanes[j]| => Cleared(state.lanes[j][b], channels))))
  }

  /** Reset every delay line of the Session. */
  function ResetLines<S(!new)>(s: Schedule<S>, h: History<S>): History<S>
    requires |h.contributions| == |h.scopes| == |s.contributions| && |h.routes| == |s.routes|
    requires |h.preRacks| == |h.postRacks| == |s.nodes|
  {
    History(
      seq(|h.routes|, r requires 0 <= r < |h.routes| => Cleared(h.routes[r], s.channels)),
      seq(|h.contributions|, k requires 0 <= k < |h.contributions| => Cleared(h.contributions[k], s.channels)),
      seq(|h.scopes|, k requires 0 <= k < |h.scopes| => ClearedLanes(h.scopes[k], s.channels)),
      seq(|h.preRacks|, n requires 0 <= n < |h.preRacks| => ClearedLanes(h.preRacks[n], s.channels)),
      seq(|h.postRacks|, n requires 0 <= n < |h.postRacks| => ClearedLanes(h.postRacks[n], s.channels)))
  }

  /** Every line is silent at its own length. */
  ghost predicate LinesSilent<S(!new)>(s: Schedule<S>, h: History<S>)
    requires Shaped(s, h)
  {
    && (forall r :: 0 <= r < |h.routes| ==> h.routes[r] == seq(s.routes[r].compensation, _ => Silence(s.channels)))
    && (forall k :: 0 <= k < |h.contributions| ==> h.contributions[k] == seq(s.contributions[k].compensation, _ => Silence(s.channels)))
    && (forall n :: 0 <= n < |s.nodes| ==> LanesSilent(s.nodes[n].preRack, h.preRacks[n], s.channels))
    && (forall n :: 0 <= n < |s.nodes| ==> LanesSilent(s.nodes[n].postRack, h.postRacks[n], s.channels))
  }

  ghost predicate LanesSilent<S>(rack: Rack<S>, state: RackState<S>, channels: nat)
    requires RackShaped(rack, state)
  {
    forall j, b :: 0 <= j < |rack.bindings| && 0 <= b < |rack.bindings[j]| ==>
      state.lanes[j][b] == seq(rack.bindings[j][b].compensation, _ => Silence(channels))
  }

  lemma ClearedKeepsShape<S>(rack: Rack<S>, state: RackState<S>, channels: nat)
    requires RackShaped(rack, state)
    ensures RackShaped(rack, ClearedLanes(state, channels))
    ensures LanesSilent(rack, ClearedLanes(state, channels), channels)
    ensures ClearedLanes(state, channels).instances == state.instances
  {
    var after := ClearedLanes(state, channels);
    forall j | 0 <= j < |state.lanes|
      ensures LanesShaped(rack.bindings[j], after.lanes[j])
    {
      assert LanesShaped(rack.bindings[j], state.lanes[j]);
    }
  }

  lemma ResetSilences<S(!new)>(s: Schedule<S>, h: History<S>)
    requires Shaped(s, h)
    ensures Shaped(s, ResetLines(s, h)) && LinesSilent(s, ResetLines(s, h))
    ensures NodesStuck(s, ResetLines(s, h)) == NodesStuck(s, h) && Stuck(s, ResetLines(s, h)) == Stuck(s, h)
  {
    hide RackShaped, LanesSilent, ClearedLanes;
    var after := ResetLines(s, h);
    forall k | 0 <= k < |s.contributions|
      ensures RackShaped(s.contributions[k].rack, after.scopes[k]) && after.scopes[k].instances == h.scopes[k].instances
    {
      ClearedKeepsShape(s.contributions[k].rack, h.scopes[k], s.channels);
    }
    forall n | 0 <= n < |s.nodes|
      ensures RackShaped(s.nodes[n].preRack, after.preRacks[n]) && RackShaped(s.nodes[n].postRack, after.postRacks[n])
      ensures LanesSilent(s.nodes[n].preRack, after.preRacks[n], s.channels) && LanesSilent(s.nodes[n].postRack, after.postRacks[n], s.channels)
      ensures after.preRacks[n].instances == h.preRacks[n].instances && after.postRacks[n].instances == h.postRacks[n].instances
    {
      ClearedKeepsShape(s.nodes[n].preRack, h.preRacks[n], s.channels);
      ClearedKeepsShape(s.nodes[n].postRack, h.postRacks[n], s.channels);
    }
    assert forall n :: NodeStuck(s, after, n) == NodeStuck(s, h, n);
    assert forall k :: ScopeStuck(s, after, k) == ScopeStuck(s, h, k);
  }

  ghost predicate RackEntered<S>(rack: Rack<S>, state: RackState<S>, epoch: Epoch, start: int, lazy: bool)
    requires RackShaped(rack, state)
  {
    forall j :: 0 <= j < |rack.slots| ==> EntersSlot(rack.slots[j], state.instances[j], epoch, start, lazy)
  }

  /** Everything is as a fresh epoch needs it. */
  ghost predicate EpochEntered<S(!new)>(s: Schedule<S>, h: History<S>, epoch: Epoch, start: int)
    requires Shaped(s, h)
  {
    && LinesSilent(s, h)
    && NodesEntered(s, h, |s.nodes|, epoch, start)
    && (forall k :: 0 <= k < |s.contributions| ==> RackEntered(s.contributions[k].rack, h.scopes[k], epoch, start, true))
  }

  ghost predicate NodesEntered<S(!new)>(s: Schedule<S>, h: History<S>, to: nat, epoch: Epoch, start: int)
    requires Shaped(s, h) && to <= |s.nodes|
  {
    forall n :: 0 <= n < to ==> NodeEntered(s, h, n, epoch, start)
  }

  ghost predicate NodeEntered<S(!new)>(s: Schedule<S>, h: History<S>, n: nat, epoch: Epoch, start: int)
    requires Shaped(s, h) && n < |s.nodes|
  {
    && RackEntered(s.nodes[n].preRack, h.preRacks[n], epoch, start, false)
    && RackEntered(s.nodes[n].postRack, h.postRacks[n], epoch, start, false)
  }

  method EnterNodes<S(!new)>(s: Schedule<S>, before: History<S>, epoch: Epoch, start: int) returns (status: Status, h: History<S>)
    requires Shaped(s, before) && LinesSilent(s, before)
    ensures Shaped(s, h) && LinesSilent(s, h)
    ensures h.scopes == before.scopes
    ensures status.Done? || (status.ProcessorFailed? && !PlanEnters(s, start)) || (status.InvalidPreparedSchedule? && NodesStuck(s, before))
    ensures status.Done? ==> NodesEntered(s, h, |s.nodes|, epoch, start) && PlanEnters(s, start) && !NodesStuck(s, before)
    ensures forall n :: NodeStuck(s, h, n) == NodeStuck(s, before, n)
  {
    hide RackShaped, Shaped, LinesSilent, LanesSilent, RackEntered, RackEnters, RackStuck, NodesEntered, NodeEnters, NodeStuck, NodesBehind;
    h := before;
    NoNodeIsBehind(s, before, epoch, start);
    for n := 0 to |s.nodes|
      invariant NodesBehind(s, before, h, n, epoch, start)
    {
      NextNode(s, before, h, n, epoch, start);
      var preRack, postRack;
      status, preRack := EnterEntered(s.nodes[n].preRack, h.preRacks[n], epoch, start, false, s.channels);
      if status.Done? {
        status, postRack := EnterEntered(s.nodes[n].postRack, h.postRacks[n], epoch, start, false, s.channels);
      } else {
        postRack := h.postRacks[n];
      }
      NodeMoves(s, before, h, n, epoch, start, preRack, postRack);
      h := h.(preRacks := h.preRacks[n := preRack], postRacks := h.postRacks[n := postRack]);
      if !status.Done? {
        NodeStops(s, before, n, start);
        return;
      }
    }
    status := Done;
    AllNodesAreBehind(s, before, h, epoch, start);
  }

  /** The racks of the nodes below `n` have been entered, the others are as they were. */
  ghost predicate NodesBehind<S(!new)>(s: Schedule<S>, before: History<S>, h: History<S>, n: nat, epoch: Epoch, start: int)
    requires Shaped(s, before) && n <= |s.nodes|
  {
    && Shaped(s, h) && LinesSilent(s, h) && h.scopes == before.scopes && NodesEntered(s, h, n, epoch, start)
    && (forall m :: n <= m < |s.nodes| ==> h.preRacks[m] == before.preRacks[m] && h.postRacks[m] == before.postRacks[m])
    && (forall m :: NodeStuck(s, h, m) == NodeStuck(s, before, m))
    && (forall m :: 0 <= m < n ==> NodeEnters(s, m, start) && !NodeStuck(s, before, m))
  }

  lemma NoNodeIsBehind<S(!new)>(s: Schedule<S>, before: History<S>, epoch: Epoch, start: int)
    requires Shaped(s, before) && LinesSilent(s, before)
    ensures NodesBehind(s, before, before, 0, epoch, start)
  {
    hide LinesSilent, NodeStuck;
  }

  lemma NextNode<S(!new)>(s: Schedule<S>, before: History<S>, h: History<S>, n: nat, epoch: Epoch, start: int)
    requires Shaped(s, before) && n < |s.nodes| && NodesBehind(s, before, h, n, epoch, start)
    ensures |h.preRacks| == |h.postRacks| == |s.nodes|
    ensures RackShaped(s.nodes[n].preRack, h.preRacks[n]) && RackShaped(s.nodes[n].postRack, h.postRacks[n])
  {
    hide RackShaped, LinesSilent, NodeStuck;
  }

  /** One node more, whether its racks could be entered or not. */
  lemma NodeMoves<S(!new)>(s: Schedule<S>, before: History<S>, h: History<S>, n: nat, epoch: Epoch, start: int, preRack: RackState<S>, postRack: RackState<S>)
    requires Shaped(s, before) && n < |s.nodes| && NodesBehind(s, before, h, n, epoch, start)
    requires |h.preRacks| == |h.postRacks| == |s.nodes|
    requires RackShaped(s.nodes[n].preRack, h.preRacks[n]) && RackShaped(s.nodes[n].postRack, h.postRacks[n])
    requires RackShaped(s.nodes[n].preRack, preRack) && RackShaped(s.nodes[n].postRack, postRack)
    requires RackStuck(s.nodes[n].preRack.slots, preRack) == RackStuck(s.nodes[n].preRack.slots, h.preRacks[n])
    requires RackStuck(s.nodes[n].postRack.slots, postRack) == RackStuck(s.nodes[n].postRack.slots, h.postRacks[n])
    requires LanesSilent(s.nodes[n].preRack, h.preRacks[n], s.channels) ==> LanesSilent(s.nodes[n].preRack, preRack, s.channels)
    requires LanesSilent(s.nodes[n].postRack, h.postRacks[n], s.channels) ==> LanesSilent(s.nodes[n].postRack, postRack, s.channels)
    ensures var after := h.(preRacks := h.preRacks[n := preRack], postRacks := h.postRacks[n := postRack]);
            && Shaped(s, after) && LinesSilent(s, after) && after.scopes == before.scopes
            && (forall m :: NodeStuck(s, after, m) == NodeStuck(s, before, m))
            && (RackEntered(s.nodes[n].preRack, preRack, epoch, start, false) && RackEntered(s.nodes[n].postRack, postRack, epoch, start, false)
                && !RackStuck(s.nodes[n].preRack.slots, h.preRacks[n]) && !RackStuck(s.nodes[n].postRack.slots, h.postRacks[n])
                && RackEnters(s.nodes[n].preRack.slots, start) && RackEnters(s.nodes[n].postRack.slots, start)
                ==> NodesBehind(s, before, after, n + 1, epoch, start))
    ensures h.preRacks[n] == before.preRacks[n] && h.postRacks[n] == before.postRacks[n]
  {
    hide RackShaped, LanesSilent, RackEntered, RackEnters, RackStuck;
    var after := h.(preRacks := h.preRacks[n := preRack], postRacks := h.postRacks[n := postRack]);
    SameRacksEntered(s, h, after, n, epoch, start);
    assert NodeStuck(s, h, n) == NodeStuck(s, before, n);
    assert NodeStuck(s, after, n) == NodeStuck(s, h, n);
    forall m | m != n
      ensures NodeStuck(s, after, m) == NodeStuck(s, before, m)
    {
      assert NodeStuck(s, h, m) == NodeStuck(s, before, m);
    }
  }

  lemma NodeStops<S(!new)>(s: Schedule<S>, before: History<S>, n: nat, start: int)
    requires Shaped(s, before) && n < |s.nodes|
    ensures !RackEnters(s.nodes[n].preRack.slots, start) || !RackEnters(s.nodes[n].postRack.slots, start) ==> !PlanEnters(s, start)
    ensures RackStuck(s.nodes[n].preRack.slots, before.preRacks[n]) || RackStuck(s.nodes[n].postRack.slots, before.postRacks[n]) ==> NodesStuck(s, before)
  {
    hide RackEnters, RackStuck;
    assert NodeEnters(s, n, start) || !PlanEnters(s, start);
    assert NodeStuck(s, before, n) ==> NodesStuck(s, before);
  }

  lemma AllNodesAreBehind<S(!new)>(s: Schedule<S>, before: History<S>, h: History<S>, epoch: Epoch, start: int)
    requires Shaped(s, before) && NodesBehind(s, before, h, |s.nodes|, epoch, start)
    ensures Shaped(s, h) && LinesSilent(s, h) && h.scopes == before.scopes && NodesEntered(s, h, |s.nodes|, epoch, start)
    ensures PlanEnters(s, start) && !NodesStuck(s, before)
    ensures forall m :: NodeStuck(s, h, m) == NodeStuck(s, before, m)
  {
    hide LinesSilent, NodeEnters, RackStuck;
    assert forall m: nat :: NodeStuck(s, before, m) ==> m < |s.nodes|;
  }

  method EnterScopes<S(!new)>(s: Schedule<S>, before: History<S>, epoch: Epoch, start: int) returns (status: Status, h: History<S>)
    requires Shaped(s, before) && LinesSilent(s, before) && NodesEntered(s, before, |s.nodes|, epoch, start)
    ensures Shaped(s, h) && h.preRacks == before.preRacks && h.postRacks == before.postRacks
    ensures status.Done? || (status.InvalidPreparedSchedule? && ScopesStuck(s, before))
    ensures status.Done? ==> EpochEntered(s, h, epoch, start) && !ScopesStuck(s, before)
    ensures forall k :: ScopeStuck(s, h, k) == ScopeStuck(s, before, k)
  {
    hide RackShaped, LanesSilent, RackEntered, RackEnters, RackStuck;
    h := before;
    for k := 0 to |s.contributions|
      invariant Shaped(s, h) && h == before.(scopes := h.scopes)
      invariant forall j :: 0 <= j < k ==> RackEntered(s.contributions[j].rack, h.scopes[j], epoch, start, true)
      invariant forall j :: k <= j < |s.contributions| ==> h.scopes[j] == before.scopes[j]
      invariant forall j :: ScopeStuck(s, h, j) == ScopeStuck(s, before, j)
      invariant forall j :: 0 <= j < k ==> !ScopeStuck(s, before, j)
    {
      var rack;
      ghost var entered := h;
      status, rack := EnterEntered(s.contributions[k].rack, h.scopes[k], epoch, start, true, s.channels);
      h := h.(scopes := h.scopes[k := rack]);
      assert ScopeStuck(s, h, k) == ScopeStuck(s, entered, k);
      if !status.Done? {
        assert ScopeStuck(s, before, k);
        return;
      }
    }
    status := Done;
    SameRacksEntered(s, before, h, |s.nodes|, epoch, start);
  }

  lemma SameRacksEntered<S(!new)>(s: Schedule<S>, before: History<S>, h: History<S>, to: nat, epoch: Epoch, start: int)
    requires Shaped(s, before) && Shaped(s, h) && to <= |s.nodes|
    requires NodesEntered(s, before, to, epoch, start)
    requires forall n :: 0 <= n < to ==> h.preRacks[n] == before.preRacks[n] && h.postRacks[n] == before.postRacks[n]
    ensures NodesEntered(s, h, to, epoch, start)
  {
    hide RackEntered, RackShaped;
    forall n | 0 <= n < to
      ensures NodeEntered(s, h, n, epoch, start)
    {
      assert NodeEntered(s, before, n, epoch, start);
    }
  }

  /** Reset all lines and enter all processors, which succeeds exactly when no instance without declared state
      has failed and every state that is entered at once admits it. Such a failure is left as it is. */
  method EnterHistory<S(!new)>(s: Schedule<S>, before: History<S>, epoch: Epoch, start: int) returns (status: Status, h: History<S>)
    requires Shaped(s, before)
    ensures Shaped(s, h)
    ensures status.Done? <==> !Stuck(s, before) && PlanEnters(s, start)
    ensures status.Done? || (status.ProcessorFailed? && !PlanEnters(s, start)) || (status.InvalidPreparedSchedule? && Stuck(s, before))
    ensures status.Done? ==> EpochEntered(s, h, epoch, start)
    ensures NodesStuck(s, h) == NodesStuck(s, before) && Stuck(s, h) == Stuck(s, before)
  {
    hide RackShaped, LinesSilent, EpochEntered, NodesEntered, PlanEnters, RackStuck;
    ResetSilences(s, before);
    status, h := EnterNodes(s, ResetLines(s, before), epoch, start);
    SameScopesStuck(s, ResetLines(s, before), h);
    if status.Done? {
      ghost var entered := h;
      status, h := EnterScopes(s, h, epoch, start);
      SameNodesStuck(s, entered, h);
    }
  }

  lemma SameScopesStuck<S(!new)>(s: Schedule<S>, before: History<S>, h: History<S>)
    requires h.scopes == before.scopes
    ensures forall k :: ScopeStuck(s, h, k) == ScopeStuck(s, before, k)
  {}

  lemma SameNodesStuck<S(!new)>(s: Schedule<S>, before: History<S>, h: History<S>)
    requires h.preRacks == before.preRacks && h.postRacks == before.postRacks
    ensures forall n :: NodeStuck(s, h, n) == NodeStuck(s, before, n)
  {}

  method EnterEntered<S(!new)>(rack: Rack<S>, before: RackState<S>, epoch: Epoch, start: int, lazy: bool, ghost channels: nat)
    returns (status: Status, after: RackState<S>)
    requires RackShaped(rack, before)
    ensures status.Done? || status.ProcessorFailed? || status.InvalidPreparedSchedule?
    ensures RackShaped(rack, after)
    ensures RackStuck(rack.slots, after) == RackStuck(rack.slots, before)
    ensures status.ProcessorFailed? ==> !lazy && !RackEnters(rack.slots, start)
    ensures LanesSilent(rack, before, channels) ==> LanesSilent(rack, after, channels)
    ensures status.Done? ==> RackEntered(rack, after, epoch, start, lazy)
    ensures status.Done? ==> !RackStuck(rack.slots, before) && (lazy || RackEnters(rack.slots, start))
    ensures status.InvalidPreparedSchedule? ==> RackStuck(rack.slots, before)
  {
    status, after := EnterRack(rack, before, epoch, start, lazy);
  }

  // ------------------------------------------------------------------ alignment of a fresh or historyless state

  /** Before the epoch every port is silent, so silent lines are aligned at the entry. */
  lemma SilentBefore<S(!new)>(w: World<S>, n: nat, port: Port, delay: nat)
    requires w.schedule.WellFormed() && n < |w.schedule.nodes|
    ensures PortWindow(w, n, port, w.entry - delay, delay) == seq(delay, _ => Silence(w.schedule.channels))
  {
    hide Stage, RackInput, AuxHistory;
    var window := PortWindow(w, n, port, w.entry - delay, delay);
    forall i | 0 <= i < delay
      ensures window[i] == Silence(w.schedule.channels)
    {
      assert window[i] == PortAt(w, n, port, w.entry - delay + i);
      assert RackOutputAt(w, n, false, w.entry - delay + i) == RackOutputAt(w, n, true, w.entry - delay + i) == Silence(w.schedule.channels);
    }
  }

  lemma SilentContributionBefore<S(!new)>(w: World<S>, k: nat, delay: nat)
    requires w.schedule.WellFormed() && k < |w.schedule.contributions|
    ensures ContributionWindow(w, k, w.entry - delay, delay) == seq(delay, _ => Silence(w.schedule.channels))
  {
    hide Stage, ScopeInput, SilentAux;
    var window := ContributionWindow(w, k, w.entry - delay, delay);
    forall i | 0 <= i < delay
      ensures window[i] == Silence(w.schedule.channels)
    {
      assert window[i] == ContributionAt(w, k, w.entry - delay + i);
    }
  }

  /** Nothing consumed yet: each instance may start from `start`. */
  ghost predicate RackFresh<S>(rack: Rack<S>, state: RackState<S>, start: int, lazy: bool) {
    && |state.instances| == |rack.slots|
    && forall j :: 0 <= j < |rack.slots| ==> SlotFresh(rack.slots[j], state.instances[j], start, lazy)
  }

  ghost predicate SlotFresh<S>(slot: Slot<S>, instance: Hosted<S>, start: int, lazy: bool) {
    match instance.continuity
    case Failed => true
    case Unentered => false
    case Stateless => !slot.processor.requiresStateEntry
    case Pending(_) => lazy && slot.processor.requiresStateEntry
    case Active(_, next) =>
      && !lazy && slot.processor.requiresStateEntry && next == start - slot.inputDelay
      && slot.processor.enter(start - slot.inputDelay) == Some(instance.state)
  }

  lemma FreshIsReady<S(!new)>(rack: Rack<S>, state: RackState<S>, start: int, entry: int, lazy: bool, aux: seq<seq<AuxFrame>>)
    requires RackFresh(rack, state, start, lazy) && (!lazy ==> entry == start)
    requires |aux| == |rack.slots| && AuxLengths(aux, 0)
    ensures RackReady(rack.slots, state.instances, entry, [], aux)
  {
    forall j | 0 <= j < |rack.slots|
      ensures Ready(rack.slots, j, state.instances[j], entry, [], aux)
    {
      assert SlotFresh(rack.slots[j], state.instances[j], start, lazy);
    }
  }

  /** Silent lines over fresh racks: the state of an epoch that has not rendered anything. */
  ghost predicate HistoryFresh<S(!new)>(s: Schedule<S>, h: History<S>, start: int)
    requires Shaped(s, h)
  {
    && LinesSilent(s, h)
    && (forall n :: 0 <= n < |s.nodes| ==> RackFresh(s.nodes[n].preRack, h.preRacks[n], start, false))
    && (forall n :: 0 <= n < |s.nodes| ==> RackFresh(s.nodes[n].postRack, h.postRacks[n], start, false))
    && (forall k :: 0 <= k < |s.contributions| ==> RackFresh(s.contributions[k].rack, h.scopes[k], start, true))
  }

  lemma EnteredIsFresh<S(!new)>(s: Schedule<S>, h: History<S>, epoch: Epoch, start: int)
    requires Shaped(s, h) && EpochEntered(s, h, epoch, start)
    ensures HistoryFresh(s, h, start) && NoInstanceFailed(h)
  {
    hide LinesSilent, LanesShaped;
    forall n | 0 <= n < |s.nodes|
      ensures RackFresh(s.nodes[n].preRack, h.preRacks[n], start, false) && NoneFailed(h.preRacks[n])
      ensures RackFresh(s.nodes[n].postRack, h.postRacks[n], start, false) && NoneFailed(h.postRacks[n])
    {
      assert NodeEntered(s, h, n, epoch, start);
      assert RackShaped(s.nodes[n].preRack, h.preRacks[n]) && RackShaped(s.nodes[n].postRack, h.postRacks[n]);
      RackEnteredIsFresh(s.nodes[n].preRack, h.preRacks[n], epoch, start, false);
      RackEnteredIsFresh(s.nodes[n].postRack, h.postRacks[n], epoch, start, false);
    }
    forall k | 0 <= k < |s.contributions|
      ensures RackFresh(s.contributions[k].rack, h.scopes[k], start, true) && NoneFailed(h.scopes[k])
    {
      assert RackShaped(s.contributions[k].rack, h.scopes[k]);
      RackEnteredIsFresh(s.contributions[k].rack, h.scopes[k], epoch, start, true);
    }
  }

  lemma RackEnteredIsFresh<S>(rack: Rack<S>, state: RackState<S>, epoch: Epoch, start: int, lazy: bool)
    requires RackShaped(rack, state) && RackEntered(rack, state, epoch, start, lazy)
    ensures RackFresh(rack, state, start, lazy) && NoneFailed(state)
  {
    forall j | 0 <= j < |rack.slots|
      ensures SlotFresh(rack.slots[j], state.instances[j], start, lazy) && !state.instances[j].continuity.Failed?
    {
      assert EntersSlot(rack.slots[j], state.instances[j], epoch, start, lazy);
    }
  }

  /** A plan without any history is fresh at every sample. */
  lemma HistorylessIsFresh<S(!new)>(s: Schedule<S>, h: History<S>, start: int)
    requires s.WellFormed() && !s.requiresStateEntry && Shaped(s, h)
    ensures HistoryFresh(s, h, start)
  {
    forall n | 0 <= n < |s.nodes|
      ensures RackFresh(s.nodes[n].preRack, h.preRacks[n], start, false) && LanesSilent(s.nodes[n].preRack, h.preRacks[n], s.channels)
      ensures RackFresh(s.nodes[n].postRack, h.postRacks[n], start, false) && LanesSilent(s.nodes[n].postRack, h.postRacks[n], s.channels)
    {
      assert s.StatelessRack(s.nodes[n].preRack) && s.StatelessRack(s.nodes[n].postRack);
      StatelessIsFresh(s, s.nodes[n].preRack, h.preRacks[n], start, false);
      StatelessIsFresh(s, s.nodes[n].postRack, h.postRacks[n], start, false);
    }
    forall k | 0 <= k < |s.contributions|
      ensures RackFresh(s.contributions[k].rack, h.scopes[k], start, true)
    {
      assert s.StatelessRack(s.contributions[k].rack);
      StatelessIsFresh(s, s.contributions[k].rack, h.scopes[k], start, true);
    }
  }

  lemma StatelessIsFresh<S(!new)>(s: Schedule<S>, rack: Rack<S>, state: RackState<S>, start: int, lazy: bool)
    requires RackShaped(rack, state) && s.StatelessRack(rack)
    ensures RackFresh(rack, state, start, lazy) && LanesSilent(rack, state, s.channels)
  {
    forall j, b | 0 <= j < |rack.bindings| && 0 <= b < |rack.bindings[j]|
      ensures state.lanes[j][b] == seq(rack.bindings[j][b].compensation, _ => Silence(s.channels))
    {
      assert LanesShaped(rack.bindings[j], state.lanes[j]);
      assert rack.bindings[j][b].compensation == 0;
    }
  }

  lemma FreshRackAligned<S(!new)>(w: World<S>, n: nat, post: bool, state: RackState<S>)
    requires w.schedule.WellFormed() && n < |w.schedule.nodes|
    requires RackShaped(w.schedule.nodes[n].RackAt(post), state)
    requires RackFresh(w.schedule.nodes[n].RackAt(post), state, w.entry, false)
    requires LanesSilent(w.schedule.nodes[n].RackAt(post), state, w.schedule.channels)
    ensures RackAligned(w, n, post, state, w.entry)
  {
    hide RackFresh, Ready, RackInputAt, AuxAt;
    assert w.schedule.NodeInPlace(n);
    var rack := w.schedule.nodes[n].RackAt(post);
    FreshIsReady(rack, state, w.entry, w.entry, false, AuxHistory(w, n, post, 0));
    assert RackInput(w, n, post, 0) == [];
    forall j | 0 <= j < |rack.bindings|
      ensures LaneSetAligned(w, n, rack.bindings[j], rack.buses[j], state.lanes[j], w.entry)
    {
      assert LanesShaped(rack.bindings[j], state.lanes[j]);
      forall b | 0 <= b < |rack.bindings[j]|
        ensures w.schedule.BindingInPlace(n, rack.bindings[j][b], rack.buses[j])
        ensures var source := w.schedule.sidechainSources[rack.bindings[j][b].sourceBuffer];
                state.lanes[j][b] == PortWindow(w, source.node, source.port, w.entry - rack.bindings[j][b].compensation, rack.bindings[j][b].compensation)
      {
        assert w.schedule.BindingInPlace(n, rack.bindings[j][b], rack.buses[j]);
        var source := w.schedule.sidechainSources[rack.bindings[j][b].sourceBuffer];
        SilentBefore(w, source.node, source.port, rack.bindings[j][b].compensation);
      }
    }
  }

  lemma FreshContributionAligned<S(!new)>(w: World<S>, k: nat, line: seq<Frame>, state: RackState<S>)
    requires w.schedule.WellFormed() && k < |w.schedule.contributions|
    requires RackShaped(w.schedule.contributions[k].rack, state)
    requires RackFresh(w.schedule.contributions[k].rack, state, w.entry, true)
    requires line == seq(w.schedule.contributions[k].compensation, _ => Silence(w.schedule.channels))
    ensures ContributionAligned(w, k, line, state, w.entry)
  {
    hide RackFresh, Ready, ContributionAt;
    assert w.schedule.ContributionInPlace(k);
    var c := w.schedule.contributions[k];
    FreshIsReady(c.rack, state, w.entry, RackStart(w, c), true, SilentAux(c.rack, w.schedule.channels, 0));
    assert ScopeInput(w, k, 0) == [];
    SilentContributionBefore(w, k, c.compensation);
    forall j | 0 <= j < |state.lanes|
      ensures state.lanes[j] == []
    {
      assert LanesShaped(c.rack.bindings[j], state.lanes[j]);
      assert c.rack.bindings[j] == [];
    }
  }

  /** A fresh state is aligned at the entry of its epoch. */
  lemma FreshIsAligned<S(!new)>(w: World<S>, h: History<S>)
    requires w.schedule.WellFormed() && Shaped(w.schedule, h) && HistoryFresh(w.schedule, h, w.entry)
    ensures AllAligned(w, h, 0, |w.schedule.nodes|, w.entry)
  {
    hide RackFresh, LanesSilent, ContributionAligned, PortWindow;
    var s := w.schedule;
    forall n | 0 <= n < |s.nodes|
      ensures NodeAligned(w, h, n, w.entry)
    {
      assert s.NodeInPlace(n);
      FreshRackAligned(w, n, false, h.preRacks[n]);
      FreshRackAligned(w, n, true, h.postRacks[n]);
      if s.nodes[n].origin.Track? {
        forall k: nat | s.nodes[n].contributionStart <= k < s.nodes[n].contributionEnd
          ensures k < |s.contributions| && ContributionAligned(w, k, h.contributions[k], h.scopes[k], w.entry)
        {
          FreshContributionAligned(w, k, h.contributions[k], h.scopes[k]);
        }
      } else {
        forall r: nat | s.nodes[n].incomingStart <= r < s.nodes[n].incomingEnd
          ensures r < |s.routes| && LineAligned(w, r, h.routes[r], w.entry)
        {
          assert s.RouteInPlace(r);
          SilentBefore(w, s.routes[r].source, s.routes[r].port, s.routes[r].compensation);
        }
      }
    }
  }

  // ------------------------------------------------------------------ a new Session

  function InitialRack<S(!new)>(rack: Rack<S>, channels: nat): RackState<S> {
    RackState(
      seq(|rack.slots|, j requires 0 <= j < |rack.slots| =>
        Hosted(if rack.slots[j].processor.requiresStateEntry then HostedContinuity.Unentered else Stateless, rack.slots[j].processor.created)),
      seq(|rack.bindings|, j requires 0 <= j < |rack.bindings| =>
        seq(|rack.bindings[j]|, b requires 0 <= b < |rack.bindings[j]| => seq(rack.bindings[j][b].compensation, _ => Silence(channels)))))
  }

  /** Delay lines of the prepared lengths and created processor instances. */
  function InitialHistory<S(!new)>(s: Schedule<S>): History<S> {
    History(
      seq(|s.routes|, r requires 0 <= r < |s.routes| => seq(s.routes[r].compensation, _ => Silence(s.channels))),
      seq(|s.contributions|, k requires 0 <= k < |s.contributions| => seq(s.contributions[k].compensation, _ => Silence(s.channels))),
      seq(|s.contributions|, k requires 0 <= k < |s.contributions| => InitialRack(s.contributions[k].rack, s.channels)),
      seq(|s.nodes|, n requires 0 <= n < |s.nodes| => InitialRack(s.nodes[n].preRack, s.channels)),
      seq(|s.nodes|, n requires 0 <= n < |s.nodes| => InitialRack(s.nodes[n].postRack, s.channels)))
  }

  lemma InitialIsShaped<S(!new)>(s: Schedule<S>)
    requires s.WellFormed()
    ensures Shaped(s, InitialHistory(s)) && NoInstanceFailed(InitialHistory(s))
  {
    hide RackShaped, NoneFailed, InitialRack;
    var h := InitialHistory(s);
    forall k | 0 <= k < |s.contributions|
      ensures RackShaped(s.contributions[k].rack, h.scopes[k]) && NoneFailed(h.scopes[k])
    {
      assert s.ContributionInPlace(k);
      InitialRackShaped(s.contributions[k].rack, s.channels);
    }
    forall n | 0 <= n < |s.nodes|
      ensures RackShaped(s.nodes[n].preRack, h.preRacks[n]) && RackShaped(s.nodes[n].postRack, h.postRacks[n])
      ensures NoneFailed(h.preRacks[n]) && NoneFailed(h.postRacks[n])
    {
      assert s.NodeInPlace(n);
      InitialRackShaped(s.nodes[n].preRack, s.channels);
      InitialRackShaped(s.nodes[n].postRack, s.channels);
    }
  }

  lemma InitialRackShaped<S(!new)>(rack: Rack<S>, channels: nat)
    requires |rack.slots| == |rack.bindings|
    ensures RackShaped(rack, InitialRack(rack, channels)) && NoneFailed(InitialRack(rack, channels))
  {
    var state := InitialRack(rack, channels);
    forall j | 0 <= j < |state.lanes|
      ensures LanesShaped(rack.bindings[j], state.lanes[j])
    {}
  }

  // ------------------------------------------------------------------ the Session

  /** The stateful PCM of an epoch follows from its entry; a plan without history starts over at every block. */
  class AudioRenderSession<S(!new)> {
    const schedule: Schedule<S>
    ghost const signal: (nat, int) -> Frame
    var continuity: Continuity
    var history: History<S>
    var buffers: seq<NodeBuffers>
    var snapshots: seq<seq<Frame>>
    var meterSerial: nat
    ghost var entry: int
    ghost var requests: seq<Request>

    ghost predicate Valid()
      reads this
    {
      && schedule.WellFormed()
      && Shaped(schedule, history)
      && |buffers| == schedule.slotCount && |snapshots| == |schedule.sidechainSources|
      && meterSerial <= U64_MAX
      && (schedule.requiresStateEntry && continuity.Active? ==> ActiveEpoch())
    }

    /** Within an epoch the internal requests are gap-free from the entry, execution runs
        ahead of the public position by nothing before priming and by exactly the
        lookahead afterwards, and the DSP state is that of the stream. */
    ghost predicate ActiveEpoch()
      requires schedule.WellFormed() && Shaped(schedule, history) && continuity.Active?
      reads this
    {
      && entry <= continuity.nextPublic
      && continuity.nextExecution == continuity.nextPublic + (if continuity.primed then schedule.lookahead else 0)
      && (!continuity.primed ==> continuity.nextPublic == entry && schedule.lookahead > 0)
      && Gapless(requests, entry, continuity.nextExecution)
      && AllAligned(World(schedule, signal, entry), history, 0, |schedule.nodes|, continuity.nextExecution)
      && NoInstanceFailed(history)
    }

    /** A Session starts with silent lines and created, unentered processors. */
    constructor (schedule: Schedule<S>, ghost signal: (nat, int) -> Frame)
      requires schedule.WellFormed()
      ensures Valid() && continuity == Continuity.Unentered && meterSerial == 0
      ensures this.schedule == schedule && this.signal == signal && NoInstanceFailed(history)
    {
      InitialIsShaped(schedule);
      this.schedule := schedule;
      this.signal := signal;
      this.history := InitialHistory(schedule);
      continuity := Continuity.Unentered;
      buffers := seq(schedule.slotCount, _ => NodeBuffers([], [], [], []));
      snapshots := seq(|schedule.sidechainSources|, _ => []);
      meterSerial := 0;
      entry, requests := 0, [];
    }

    /** Begin a new epoch at `start` with silent lines and freshly entered processors. It succeeds exactly when the
        epoch is new, no instance without declared state ever failed and every state entered at once admits it. */
    method EnterState(epoch: Epoch, start: int) returns (error: Option<RenderError>)
      requires Valid()
      modifies this
      ensures Valid()
      ensures continuity == AfterEntry(schedule, old(continuity), epoch, start, error.None?)
      ensures error == Some(ReusedContinuityEpoch(epoch)) <==> Reused(old(continuity), epoch)
      ensures Reused(old(continuity), epoch) ==> history == old(history)
      ensures error.None? ==> entry == start && requests == [] && NoInstanceFailed(history)
      ensures !Reused(old(continuity), epoch) ==> (error.None? <==> !Stuck(schedule, old(history)) && PlanEnters(schedule, start))
      ensures error.Some? && !Reused(old(continuity), epoch) ==>
                || (error == Some(ExecutionFailed(Status.InvalidPreparedSchedule)) && Stuck(schedule, old(history)))
                || (error == Some(ExecutionFailed(ProcessorFailed)) && !PlanEnters(schedule, start))
      ensures Stuck(schedule, history) == Stuck(schedule, old(history))
      ensures NodesStuck(schedule, history) == NodesStuck(schedule, old(history))
      ensures buffers == old(buffers) && snapshots == old(snapshots) && meterSerial == old(meterSerial)
    {
      hide Shaped, AllAligned, NoInstanceFailed, HistoryFresh, EpochEntered, NodesStuck, Stuck, PlanEnters;
      if Reused(continuity, epoch) {
        return Some(ReusedContinuityEpoch(epoch));
      }
      continuity := Poisoned(epoch);
      var status, entered := EnterHistory(schedule, history, epoch, start);
      history := entered;
      if !status.Done? {
        return Some(ExecutionFailed(status));
      }
      entry, requests := start, [];
      EnteredIsFresh(schedule, history, epoch, start);
      FreshIsAligned(World(schedule, signal, start), history);
      continuity := Continuity.Active(epoch, start, start, schedule.lookahead == 0);
      return None;
    }

    /** Evaluate one internal block: every node in schedule order. On success the
        slot of the output holds its ports and all state has moved to the end of the block. */
    method RenderInternal(read: SourceRead, start: int, frames: nat, ghost w: World<S>) returns (status: Status)
      requires frames <= schedule.maxBlock
      requires w.schedule == schedule && w.signal == signal && schedule.WellFormed()
      requires Shaped(schedule, history) && |buffers| == schedule.slotCount && |snapshots| == |schedule.sidechainSources|
      requires AllAligned(w, history, 0, |schedule.nodes|, start)
      requires SourceAgrees(read, signal, schedule.channels)
      modifies this`history, this`buffers, this`snapshots, this`requests
      ensures Shaped(schedule, history) && |buffers| == schedule.slotCount && |snapshots| == |schedule.sidechainSources|
      ensures requests == old(requests) + [Request(start, frames)]
      ensures status.Done? || status.SourceUnavailable? || status.ProcessorFailed? || status.PoisonedInstance?
      ensures status.PoisonedInstance? ==> !NoInstanceFailed(old(history))
      ensures Accounts(schedule, read, old(history), history, status)
      ensures status.Done? ==> !NodesStuck(schedule, old(history))
      ensures status.Done? ==>
                && AllAligned(w, history, 0, |schedule.nodes|, start + frames)
                && schedule.nodes[schedule.output].scratchSlot < |buffers|
                && buffers[schedule.nodes[schedule.output].scratchSlot].postMute == PortWindow(w, schedule.output, PostMute, start, frames)
                && (NoInstanceFailed(old(history)) ==> NoInstanceFailed(history))
    {
      hide NodeAligned, AllAligned, NoInstanceFailed, HoldsNode, BlockReady, Shaped, PortWindow, Accounts, HistoryMoves, NoneFailed, NodesStuck, NodesRendered;
      requests := requests + [Request(start, frames)];
      status := Done;
      BlockBegins(w, history, buffers, snapshots, start, frames);
      NothingHappened(schedule, history);
      NothingRendered(w, history, buffers, start, frames);
      for n := 0 to |schedule.nodes|
        invariant BlockReady(w, history, buffers, snapshots, n, start, frames) && Shaped(schedule, history)
        invariant |buffers| == schedule.slotCount && |snapshots| == |schedule.sidechainSources|
        invariant requests == old(requests) + [Request(start, frames)]
        invariant NodesRendered(w, old(history), history, buffers, n, start, frames)
      {
        ghost var before, held := history, buffers;
        status, history, buffers, snapshots := RenderNode(schedule, n, start, frames, read, history, buffers, snapshots, w);
        NodeRendered(w, read, old(history), before, history, held, buffers, n, start, frames, status);
        if !status.Done? {
          return;
        }
      }
      status := Done;
      AllRendered(w, read, old(history), history, buffers, snapshots, start, frames);
    }

    /** Evaluate the lookahead once, in blocks of at most the prepared maximum. */
    method Prime(read: SourceRead, from: int, ghost w: World<S>) returns (error: Option<RenderError>, execution: int)
      requires w.schedule == schedule && w.signal == signal && schedule.WellFormed()
      requires Shaped(schedule, history) && |buffers| == schedule.slotCount && |snapshots| == |schedule.sidechainSources|
      requires AllAligned(w, history, 0, |schedule.nodes|, from) && NoInstanceFailed(history)
      requires Gapless(requests, w.entry, from)
      requires SourceAgrees(read, signal, schedule.channels)
      modifies this`history, this`buffers, this`snapshots, this`requests
      ensures Shaped(schedule, history) && |buffers| == schedule.slotCount && |snapshots| == |schedule.sidechainSources|
      ensures error.Some? ==> error.value in {BufferTooLarge, ExecutionFailed(SourceUnavailable), ExecutionFailed(ProcessorFailed)}
      ensures Explains(schedule, read, old(history), history, error, from)
      ensures error.None? ==>
                && execution == from + schedule.lookahead && (schedule.lookahead > 0 ==> execution <= I64_MAX)
                && AllAligned(w, history, 0, |schedule.nodes|, execution)
                && NoInstanceFailed(history)
                && Gapless(requests, w.entry, execution)
    {
      hide NoInstanceFailed, Shaped, AllAligned, SourceAgrees, Gapless, Reliable, HistoryMoves, PlanCulprit, NodesStuck;
      execution := from;
      NothingHappened(schedule, history);
      var remaining: nat := schedule.lookahead;
      while remaining > 0
        invariant remaining <= schedule.lookahead && execution == from + schedule.lookahead - remaining
        invariant remaining < schedule.lookahead ==> execution <= I64_MAX
        invariant Shaped(schedule, history) && |buffers| == schedule.slotCount && |snapshots| == |schedule.sidechainSources|
        invariant AllAligned(w, history, 0, |schedule.nodes|, execution)
        invariant NoInstanceFailed(history)
        invariant Gapless(requests, w.entry, execution)
        invariant HistoryMoves(schedule, Done, old(history), history)
      {
        var frames := if remaining < schedule.maxBlock then remaining else schedule.maxBlock;
        ghost var before, held := requests, history;
        var status := RenderInternal(read, execution, frames, w);
        HistoryMovesOn(schedule, status, old(history), held, history);
        if !status.Done? {
          return Some(ExecutionFailed(status)), execution;
        }
        if execution + frames > I64_MAX {
          return Some(BufferTooLarge), execution;
        }
        GaplessExtends(before, w.entry, execution, frames);
        execution := execution + frames;
        remaining := remaining - frames;
      }
      error := None;
    }

    /** The entry of the stream this call continues. */
    ghost function StreamEntry(start: int): int
      reads this
    {
      if schedule.requiresStateEntry then entry else start
    }

    /** The part of a render call behind its entry checks: prime once if needed, evaluate the
        public block at its execution position, copy the output out. */
    method RenderAdmitted(read: SourceRead, start: int, frames: nat, destination: array<Frame>, from: int, primedBefore: bool, ghost w: World<S>)
      returns (error: Option<RenderError>, execution: int, primed: bool)
      requires w.schedule == schedule && w.signal == signal && schedule.WellFormed()
      requires Shaped(schedule, history) && |buffers| == schedule.slotCount && |snapshots| == |schedule.sidechainSources|
      requires AllAligned(w, history, 0, |schedule.nodes|, from) && Gapless(requests, w.entry, from)
      requires primedBefore || NoInstanceFailed(history)
      requires from == if primedBefore then start + schedule.lookahead else start
      requires SourceAgrees(read, signal, schedule.channels)
      requires destination.Length == frames <= schedule.maxBlock && meterSerial <= U64_MAX
      modifies this`history, this`buffers, this`snapshots, this`meterSerial, this`requests, destination
      ensures Shaped(schedule, history) && |buffers| == schedule.slotCount && |snapshots| == |schedule.sidechainSources|
      ensures meterSerial <= U64_MAX
      ensures error.Some? ==>
                || error.value in {BufferTooLarge, MeterSerialExhausted, ExecutionFailed(SourceUnavailable), ExecutionFailed(ProcessorFailed)}
                || (error.value == ExecutionFailed(PoisonedInstance) && !NoInstanceFailed(old(history)))
      ensures Explains(schedule, read, old(history), history, error, start + frames)
      ensures error == Some(MeterSerialExhausted) ==> old(meterSerial) == U64_MAX
      ensures error.Some? ==> destination[..] == old(destination[..])
      ensures error.None? && primedBefore ==> !NodesStuck(schedule, old(history))
      ensures error.None? ==>
                && primed == (primedBefore || frames > 0)
                && execution == start + frames + (if primed then schedule.lookahead else 0)
                && AllAligned(w, history, 0, |schedule.nodes|, execution) && Gapless(requests, w.entry, execution)
                && (NoInstanceFailed(old(history)) ==> NoInstanceFailed(history))
                && (forall i :: 0 <= i < frames ==> destination[i] == PublicAt(w, start + i))
                && meterSerial == old(meterSerial) + 1
    {
      hide Shaped, AllAligned, NoInstanceFailed, Gapless, SourceAgrees, PublicAt, PortWindow, Reliable, HistoryMoves, PlanCulprit, NodesStuck;
      execution, primed := from, primedBefore;
      NothingHappened(schedule, history);
      if !primed && frames > 0 {
        error, execution := Prime(read, execution, w);
        if error.Some? {
          return;
        }
        primed := true;
      }
      if meterSerial + 1 > U64_MAX {
        return Some(MeterSerialExhausted), execution, primed;
      }
      ghost var done, held := requests, history;
      var status := RenderInternal(read, execution, frames, w);
      HistoryMovesOn(schedule, status, old(history), held, history);
      if !status.Done? {
        return Some(ExecutionFailed(status)), execution, primed;
      }
      GaplessExtends(done, w.entry, execution, frames);
      OutputIsPublic(w, execution, start, frames);
      var output := buffers[schedule.nodes[schedule.output].scratchSlot].postMute;
      forall i | 0 <= i < frames {
        destination[i] := output[i];
      }
      meterSerial := meterSerial + 1;
      error, execution := None, execution + frames;
    }

    /** Render one public block. A rejected request leaves everything as it was; any later
        failure poisons the epoch; a success delivers the public stream at exactly the
        requested samples and moves the epoch on by the block. */
    method RenderInto(read: SourceRead, start: int, frames: nat, destination: array<Frame>) returns (error: Option<RenderError>)
      requires Valid()
      requires SourceAgrees(read, signal, schedule.channels)
      modifies this`continuity, this`history, this`buffers, this`snapshots, this`meterSerial, this`requests, destination
      ensures Valid()
      ensures var rejection := Rejection(schedule, old(continuity), start, frames, destination.Length);
              rejection.Some? ==>
                error == rejection && continuity == old(continuity) && history == old(history) && meterSerial == old(meterSerial)
      ensures var rejection := Rejection(schedule, old(continuity), start, frames, destination.Length);
              rejection.None? ==>
                && continuity == AfterRender(schedule, old(continuity), start, frames, error.None?)
                && (error.Some? ==>
                      || error.value in {BufferTooLarge, MeterSerialExhausted, ExecutionFailed(SourceUnavailable), ExecutionFailed(ProcessorFailed)}
                      || (!schedule.requiresStateEntry && !NoInstanceFailed(old(history)) && error.value == ExecutionFailed(PoisonedInstance)))
                && Explains(schedule, read, old(history), history, error, start + frames)
                && (error == Some(MeterSerialExhausted) ==> old(meterSerial) == 0xFFFF_FFFF_FFFF_FFFF)
      ensures error in {Some(BlockTooLarge), Some(OutputSizeMismatch)} ==> destination[..] == old(destination[..])
      ensures error.Some? && error.value !in {BlockTooLarge, OutputSizeMismatch} ==>
                || (forall i :: 0 <= i < destination.Length ==> destination[i] == Silence(schedule.channels))
                || (error.value == BufferTooLarge && old(continuity).Active? && old(continuity).nextExecution + schedule.lookahead + frames >= 0x8000_0000_0000_0000)
      ensures error.None? ==>
                && destination.Length == frames
                && (forall i :: 0 <= i < frames ==> destination[i] == PublicAt(World(schedule, signal, StreamEntry(start)), start + i))
                && meterSerial == old(meterSerial) + 1
      ensures error.None? && schedule.requiresStateEntry ==> continuity.nextExecution <= I64_MAX
      ensures Stuck(schedule, old(history)) ==> Stuck(schedule, history)
      ensures NodesStuck(schedule, old(history)) ==> NodesStuck(schedule, history)
      ensures error != Some(ExecutionFailed(ProcessorFailed)) || StatelessPlanRuns(schedule) ==> Stuck(schedule, history) == Stuck(schedule, old(history))
      ensures error.None? && !schedule.requiresStateEntry ==> !NodesStuck(schedule, old(history))
      ensures error.None? && !schedule.requiresStateEntry && NoInstanceFailed(old(history)) ==>
                && NoInstanceFailed(history)
                && forall i :: 0 <= i < frames ==> destination[i] == InstantAt(schedule, signal, start + i)
    {
      hide Shaped, AllAligned, NoInstanceFailed, Gapless, SourceAgrees, PublicAt, InstantAt, Reliable, HistoryMoves, PlanCulprit, NodesStuck, Stuck, StatelessPlanRuns, Schedule.Historyless;
      if frames > schedule.maxBlock {
        return Some(BlockTooLarge);
      }
      if destination.Length != frames {
        return Some(OutputSizeMismatch);
      }
      forall i | 0 <= i < destination.Length {
        destination[i] := Silence(schedule.channels);
      }
      if start + frames > I64_MAX {
        return Some(BufferTooLarge);
      }
      ghost var w := World(schedule, signal, StreamEntry(start));
      var execution, primed := start, true;
      var before := continuity;
      if schedule.requiresStateEntry {
        match continuity {
          case Unentered => return Some(RenderError.StateEntryRequired);
          case Poisoned(epoch) => return Some(ContinuityPoisoned(epoch));
          case Active(epoch, nextPublic, nextExecution, alreadyPrimed) =>
            if nextPublic != start {
              return Some(NonContiguousBlock(epoch, nextPublic, start));
            }
            execution, primed := nextExecution, alreadyPrimed;
            continuity := Poisoned(epoch);
        }
      } else {
        NeedsNoHistory(schedule);
        if schedule.lookahead != 0 {
          return Some(RenderError.InvalidPreparedSchedule);
        }
        HistorylessIsAligned(w, history);
        requests := [];
        GaplessNothing(start);
      }
      error, execution, primed := RenderAdmitted(read, start, frames, destination, execution, primed, w);
      StuckPersists(schedule, StatusOf(error), old(history), history);
      if error.Some? {
        return;
      }
      if schedule.requiresStateEntry {
        if execution > I64_MAX {
          return Some(BufferTooLarge);
        }
        continuity := Continuity.Active(before.epoch, start + frames, execution, primed);
      } else if NoInstanceFailed(old(history)) {
        BlocksAreInstant(w, history, execution, destination[..]);
      }
    }
  }

  /** Every failure behind the entry checks has a cause that the caller can know: a read or a processor
      that fails, or execution samples beyond the range of their type. A processor that failed leaves its
      instance failed, and no other instance changes in that respect. */
  ghost predicate Explains<S(!new)>(s: Schedule<S>, read: SourceRead, before: History<S>, after: History<S>, error: Option<RenderError>, end: int) {
    && HistoryMoves(s, StatusOf(error), before, after)
    && (error == Some(ExecutionFailed(SourceUnavailable)) ==> !Reliable(read))
    && (error == Some(ExecutionFailed(ProcessorFailed)) ==> PlanCulprit(s, after))
    && (error == Some(BufferTooLarge) ==> end + s.lookahead > I64_MAX)
  }

  lemma NothingHappened<S(!new)>(s: Schedule<S>, h: History<S>)
    requires Shaped(s, h)
    ensures HistoryMoves(s, Done, h, h)
  {
    hide RackShaped, Moves;
    NothingMoved(s, Done, h, h);
  }

  lemma AccountsOn<S(!new)>(s: Schedule<S>, read: SourceRead, a: History<S>, b: History<S>, c: History<S>, status: Status)
    requires HistoryMoves(s, Done, a, b) && Accounts(s, read, b, c, status)
    ensures Accounts(s, read, a, c, status)
  {
    hide HistoryMoves, PlanCulprit, Reliable;
    HistoryMovesOn(s, status, a, b, c);
  }

  /** The nodes before `n` rendered: none of their racks held a failed instance, and the last one still holds its slot. */
  ghost predicate NodesRendered<S(!new)>(w: World<S>, before: History<S>, h: History<S>, buffers: seq<NodeBuffers>, n: nat, start: int, frames: nat)
    requires w.schedule.WellFormed() && n <= |w.schedule.nodes|
  {
    && HistoryMoves(w.schedule, Done, before, h) && (NoInstanceFailed(before) ==> NoInstanceFailed(h))
    && (forall m :: 0 <= m < n ==> !NodeStuck(w.schedule, before, m))
    && (n > 0 ==> w.schedule.nodes[n - 1].scratchSlot < |buffers|
                  && HoldsNode(w, buffers[w.schedule.nodes[n - 1].scratchSlot], n - 1, start, frames))
  }

  lemma NothingRendered<S(!new)>(w: World<S>, h: History<S>, buffers: seq<NodeBuffers>, start: int, frames: nat)
    requires w.schedule.WellFormed() && HistoryMoves(w.schedule, Done, h, h)
    ensures NodesRendered(w, h, h, buffers, 0, start, frames)
  {
    hide HistoryMoves, NoInstanceFailed;
  }

  lemma NodeRendered<S(!new)>(w: World<S>, read: SourceRead, before: History<S>, h: History<S>, after: History<S>,
                              held: seq<NodeBuffers>, buffers: seq<NodeBuffers>, n: nat, start: int, frames: nat, status: Status)
    requires w.schedule.WellFormed() && n < |w.schedule.nodes| && Shaped(w.schedule, h)
    requires NodesRendered(w, before, h, held, n, start, frames) && Accounts(w.schedule, read, h, after, status)
    requires status.Done? ==>
               && w.schedule.nodes[n].scratchSlot < |buffers| && HoldsNode(w, buffers[w.schedule.nodes[n].scratchSlot], n, start, frames)
               && (NoInstanceFailed(h) ==> NoInstanceFailed(after)) && NoneFailed(h.preRacks[n]) && NoneFailed(h.postRacks[n])
    ensures Accounts(w.schedule, read, before, after, status) && (NoInstanceFailed(before) ==> NoInstanceFailed(h))
    ensures status.Done? ==> NodesRendered(w, before, after, buffers, n + 1, start, frames)
  {
    hide HistoryMoves, NoInstanceFailed, HoldsNode, NoneFailed, Accounts, NodeStuck;
    AccountsOn(w.schedule, read, before, h, after, status);
    if status.Done? {
      NothingToBlame(w.schedule, read, before, after);
      WholeNode(w.schedule, before, h, n);
    }
  }

  lemma AllRendered<S(!new)>(w: World<S>, read: SourceRead, before: History<S>, h: History<S>, buffers: seq<NodeBuffers>, snapshots: seq<seq<Frame>>,
                             start: int, frames: nat)
    requires w.schedule.WellFormed()
    requires NodesRendered(w, before, h, buffers, |w.schedule.nodes|, start, frames) && BlockReady(w, h, buffers, snapshots, |w.schedule.nodes|, start, frames)
    ensures Accounts(w.schedule, read, before, h, Done) && !NodesStuck(w.schedule, before) && (NoInstanceFailed(before) ==> NoInstanceFailed(h))
    ensures Shaped(w.schedule, h) && AllAligned(w, h, 0, |w.schedule.nodes|, start + frames)
    ensures w.schedule.nodes[w.schedule.output].scratchSlot < |buffers|
    ensures buffers[w.schedule.nodes[w.schedule.output].scratchSlot].postMute == PortWindow(w, w.schedule.output, PostMute, start, frames)
  {
    hide HistoryMoves, NoInstanceFailed, HoldsNode, Accounts, AllAligned, SlotsLive, RackStuck;
    NothingToBlame(w.schedule, read, before, h);
    assert forall m: nat :: NodeStuck(w.schedule, before, m) ==> m < |w.schedule.nodes|;
    BlockEnds(w, buffers[w.schedule.nodes[w.schedule.output].scratchSlot], start, frames);
  }

  /** The racks of a node that rendered held no failed instance when the block began. */
  lemma WholeNode<S(!new)>(s: Schedule<S>, before: History<S>, h: History<S>, n: nat)
    requires HistoryMoves(s, Done, before, h) && n < |s.nodes| && NoneFailed(h.preRacks[n]) && NoneFailed(h.postRacks[n])
    ensures !NodeStuck(s, before, n)
  {
    hide Moves, NoneFailed, RackStuck;
    WholeBefore(s.nodes[n].preRack.slots, Done, before.preRacks[n], h.preRacks[n]);
    WholeBefore(s.nodes[n].postRack.slots, Done, before.postRacks[n], h.postRacks[n]);
    StuckFailed(s.nodes[n].preRack.slots, before.preRacks[n]);
    StuckFailed(s.nodes[n].postRack.slots, before.postRacks[n]);
  }

  lemma GaplessNothing(at: int)
    ensures Gapless([], at, at)
  {}

  /** The output port `lookahead` samples later is the public output. */
  lemma OutputIsPublic<S(!new)>(w: World<S>, execution: int, start: int, frames: nat)
    requires w.schedule.WellFormed() && (frames > 0 ==> execution == start + w.schedule.lookahead)
    ensures |PortWindow(w, w.schedule.output, PostMute, execution, frames)| == frames
    ensures forall i :: 0 <= i < frames ==> PortWindow(w, w.schedule.output, PostMute, execution, frames)[i] == PublicAt(w, start + i)
  {
    hide PortAt;
  }

  /** Continuity after an admitted call. */
  function AfterRender<S(!new)>(s: Schedule<S>, before: Continuity, start: int, frames: nat, succeeded: bool): Continuity
    requires Rejection(s, before, start, frames, frames).None?
  {
    if !s.requiresStateEntry then before
    else if !succeeded then Poisoned(before.epoch)
    else
      var primed := before.primed || frames > 0;
      Continuity.Active(before.epoch, start + frames,
                        before.nextExecution + frames + (if primed && !before.primed then s.lookahead else 0), primed)
  }

  lemma BlockBegins<S(!new)>(w: World<S>, h: History<S>, buffers: seq<NodeBuffers>, snapshots: seq<seq<Frame>>, start: int, frames: nat)
    requires w.schedule.WellFormed() && Shaped(w.schedule, h)
    requires |buffers| == w.schedule.slotCount && |snapshots| == |w.schedule.sidechainSources|
    requires AllAligned(w, h, 0, |w.schedule.nodes|, start)
    ensures BlockReady(w, h, buffers, snapshots, 0, start, frames)
  {
    hide NodeAligned, Shaped;
  }

  /** The output is the last node, so nothing has overwritten its slot. */
  lemma BlockEnds<S(!new)>(w: World<S>, buffers: NodeBuffers, start: int, frames: nat)
    requires w.schedule.WellFormed()
    requires HoldsNode(w, buffers, w.schedule.output, start, frames)
    ensures buffers.postMute == PortWindow(w, w.schedule.output, PostMute, start, frames)
  {
    hide PortWindow;
    assert buffers.At(PostMute) == PortWindow(w, w.schedule.output, PostMute, start, frames);
  }
}
