/** From a compiled program to delivered PCM: preparation, a Session, one entered epoch and any partition into blocks. */
module Delivery {
  import opened Frames
  import opened Graph
  import opened Processors
  import opened Schedule
  import opened Host
  import opened Render
  import opened Historyless
  import opened Session
  import opened Playback
  import opened Compensation
  import opened Transparency
  import opened Preparation
  import opened ProgramMix
  import Latency

  /** The latency of every processor is a pure shift, as far as the program says what it is fed. */
  ghost predicate ProgramCompensable<S(!new)>(p: Program<S>) {
    && (forall n :: 0 <= n < |p.strips| ==> RackCompensable(p.strips[n].pre, p.channels) && RackCompensable(p.strips[n].post, p.channels))
    && (forall k :: 0 <= k < |p.contributions| ==> RackCompensable(p.contributions[k].processors, p.channels))
  }

  ghost predicate RackCompensable<S(!new)>(rack: seq<PlannedProcessor<S>>, channels: nat) {
    forall j :: 0 <= j < |rack| ==> Compensable(rack[j].processor, channels, rack[j].buses)
  }

  lemma RealizedCompensable<S(!new)>(s: Schedule<S>, p: Program<S>)
    requires Realizes(s, p) && ProgramCompensable(p)
    ensures AllCompensable(s)
  {
    hide Compensable, RoutesInto, PrefixLatency, SlotLatencies;
    forall n | 0 <= n < |s.nodes|
      ensures CompensableRack(s.nodes[n].preRack.slots, s.channels, s.nodes[n].preRack.buses)
      ensures CompensableRack(s.nodes[n].postRack.slots, s.channels, s.nodes[n].postRack.buses)
    {
      assert NodeRealized(s, n, p);
      assert RackCompensable(p.strips[n].pre, p.channels) && RackCompensable(p.strips[n].post, p.channels);
    }
    forall k | 0 <= k < |s.contributions|
      ensures CompensableRack(s.contributions[k].rack.slots, s.channels, s.contributions[k].rack.buses)
    {
      assert ContributionRealized(s.contributions[k], p.contributions[k]);
      assert RackCompensable(p.contributions[k].processors, p.channels);
    }
  }

  lemma CompensableRackRuns<S(!new)>(slots: seq<Slot<S>>, channels: nat, buses: seq<nat>)
    requires CompensableRack(slots, channels, buses)
    ensures RackRuns(slots)
  {
    hide Compensable, AlwaysRuns;
    forall j | 0 <= j < |slots|
      ensures AlwaysRuns(slots[j].processor)
    {
      CompensableRuns(slots[j].processor, channels, buses[j]);
    }
  }

  /** Such a processor never fails. */
  lemma CompensablePlanRuns<S(!new)>(s: Schedule<S>)
    requires AllCompensable(s)
    ensures PlanRuns(s)
  {
    hide CompensableRack, RackRuns;
    forall n | 0 <= n < |s.nodes|
      ensures RackRuns(s.nodes[n].preRack.slots) && RackRuns(s.nodes[n].postRack.slots)
    {
      CompensableRackRuns(s.nodes[n].preRack.slots, s.channels, s.nodes[n].preRack.buses);
      CompensableRackRuns(s.nodes[n].postRack.slots, s.channels, s.nodes[n].postRack.buses);
    }
    forall k | 0 <= k < |s.contributions|
      ensures RackRuns(s.contributions[k].rack.slots)
    {
      CompensableRackRuns(s.contributions[k].rack.slots, s.channels, s.contributions[k].rack.buses);
    }
  }

  lemma {:induction false} StageRuns<S(!new)>(slots: seq<Slot<S>>, k: nat, start: int, main: seq<Frame>, aux: seq<seq<AuxFrame>>)
    requires RackRuns(slots) && StreamingRack(slots) && k <= |slots| == |aux| && AuxLengths(aux, |main|)
    ensures Stage(slots, k, start, main, aux).Some?
    decreases k
  {
    hide Streaming;
    if k > 0 {
      StageRuns(slots, k - 1, start, main, aux);
      StageLength(slots, k - 1, start, main, aux);
      assert RunsOn(slots[k - 1].processor, start - slots[k - 1].inputDelay, Stage(slots, k - 1, start, main, aux).value, aux[k - 1]);
    }
  }

  lemma RunningSucceeds<S(!new)>(w: World<S>, e: int)
    requires w.schedule.WellFormed() && PlanRuns(w.schedule) && e >= w.entry
    ensures Succeeds(w, e)
  {
    hide Stage, RackInput, AuxHistory, ScopeInput, SilentAux, RackRuns, StreamingRack;
    forall n | 0 <= n < |w.schedule.nodes|
      ensures NodeSucceeds(w, n, e)
    {
      assert w.schedule.NodeInPlace(n);
      var length := e + 1 - w.entry;
      StageRuns(w.schedule.nodes[n].preRack.slots, |w.schedule.nodes[n].preRack.slots|, w.entry, RackInput(w, n, false, length), AuxHistory(w, n, false, length));
      StageRuns(w.schedule.nodes[n].postRack.slots, |w.schedule.nodes[n].postRack.slots|, w.entry, RackInput(w, n, true, length), AuxHistory(w, n, true, length));
    }
    forall k | 0 <= k < |w.schedule.contributions|
      ensures ContributionSucceeds(w, k, e)
    {
      assert w.schedule.ContributionInPlace(k);
      var c := w.schedule.contributions[k];
      if Executes(c, e) {
        var length := e + 1 - RackStart(w, c);
        StageRuns(c.rack.slots, |c.rack.slots|, RackStart(w, c), ScopeInput(w, k, length), SilentAux(c.rack, w.schedule.channels, length));
      }
    }
  }

  /** What a caller is owed for a prepared program is the mix the program means. */
  lemma OwedIsProgramOutput<S(!new)>(s: Schedule<S>, p: Program<S>, plan: Latency.Plan, signal: (nat, int) -> Frame, entry: int, sample: int)
    requires Prepared(s, plan) && Stands(s, p) && sample >= entry
    ensures OwedAt(s, signal, entry, sample) == ProgramOutput(p, signal, entry, sample)
  {
    hide PortAt, IdealPort, MixedPort, Planned, Extended, AllCompensable, SidechainsTimed, Realizes, Acyclic, PlanRuns, Succeeds;
    var w := World(s, signal, entry);
    OutputTransparent(w, plan, sample);
    PreparationKeepsMeaning(w, p, sample);
    if !s.requiresStateEntry {
      CompensablePlanRuns(s);
      RunningSucceeds(w, sample);
      PortAlone(w, s.output, PostMute, sample);
    }
  }

  datatype Failure = Unprepared(preparation: PrepareError) | Unrendered(rendering: RenderError)

  /** Everything that can keep a program from being delivered. */
  ghost predicate Excused<S(!new)>(p: Program<S>, read: SourceRead, start: int, sizes: seq<nat>, failure: Failure) {
    match failure
    case Unprepared(error) => Obstacle(p) == Some(error)
    case Unrendered(BlockTooLarge) => exists b :: 0 <= b < |sizes| && sizes[b] > p.maxBlock
    case Unrendered(BufferTooLarge) => start + Total(sizes) + TotalLatency(p) >= 0x8000_0000_0000_0000
    case Unrendered(MeterSerialExhausted) => |sizes| >= 0x1_0000_0000_0000_0000
    case Unrendered(ExecutionFailed(SourceUnavailable)) => !Reliable(read)
    case Unrendered(_) => false
  }

  lemma JustifiedIsExcused<S(!new)>(s: Schedule<S>, p: Program<S>, read: SourceRead, start: int, sizes: seq<nat>, error: RenderError)
    requires Justified(s, read, start, sizes, 0, error) && PlanRuns(s)
    requires s.maxBlock == p.maxBlock && s.lookahead <= TotalLatency(p)
    ensures Excused(p, read, start, sizes, Unrendered(error))
  {
    hide PlanRuns, Reliable, TotalLatency;
  }

  /** Enter an epoch of a schedule whose processors never fail, and render blocks. */
  method EnterAndRender<S(!new)>(s: Schedule<S>, ghost signal: (nat, int) -> Frame, read: SourceRead, epoch: Epoch, start: int, sizes: seq<nat>)
    returns (failure: Option<RenderError>, pcm: seq<Frame>)
    requires s.WellFormed() && PlanRuns(s) && SourceAgrees(read, signal, s.channels)
    ensures failure.Some? ==> Justified(s, read, start, sizes, 0, failure.value)
    ensures failure.None? ==> |pcm| == Total(sizes) && forall i :: 0 <= i < |pcm| ==> pcm[i] == OwedAt(s, signal, start, start + i)
  {
    hide OwedAt, SourceAgrees, NoInstanceFailed, PlanRuns, Justified, Stuck, NodesStuck, PlanEnters, Shaped;
    var session := new AudioRenderSession(s, signal);
    WholeIsNotStuck(s, session.history);
    RunningEnters(s, start);
    failure := session.EnterState(epoch, start);
    failure, pcm := RenderBlocks(session, read, start, sizes);
  }

  /** Play a prepared program. */
  method Play<S(!new)>(p: Program<S>, s: Schedule<S>, ghost plan: Latency.Plan, ghost signal: (nat, int) -> Frame, read: SourceRead,
                         epoch: Epoch, start: int, sizes: seq<nat>)
    returns (failure: Option<RenderError>, pcm: seq<Frame>)
    requires Stands(s, p) && Prepared(s, plan) && s.lookahead <= TotalLatency(p) && SourceAgrees(read, signal, p.channels)
    ensures failure.Some? ==> Excused(p, read, start, sizes, Unrendered(failure.value))
    ensures failure.None? ==>
              |pcm| == Total(sizes) && forall i :: 0 <= i < |pcm| ==> pcm[i] == ProgramOutput(p, signal, start, start + i)
  {
    hide AllCompensable, SidechainsTimed, Planned, Extended, Realizes, OwedAt, MixedPort, SourceAgrees, TotalLatency, PlanRuns, Reliable, Justified;
    CompensablePlanRuns(s);
    SameChannels(s, p);
    failure, pcm := EnterAndRender(s, signal, read, epoch, start, sizes);
    if failure.Some? {
      JustifiedIsExcused(s, p, read, start, sizes, failure.value);
      return;
    }
    forall i | 0 <= i < |pcm|
      ensures pcm[i] == ProgramOutput(p, signal, start, start + i)
    {
      OwedIsProgramOutput(s, p, plan, signal, start, start + i);
    }
  }

  /** A sidechain that can be bound taps an earlier strip. */
  lemma TimelyLeadsForward<S(!new)>(p: Program<S>)
    requires LeadsForward(p) && SidechainsTimely(p)
    ensures SidechainsLeadForward(p)
  {
    hide PrefixLatency, ProgramLatencies;
    forall n, behind, j | 0 <= n < |p.strips| && 0 <= j < |p.strips[n].RackAt(behind)|
      ensures LeadBefore(p.strips[n].RackAt(behind)[j].sidechains, n)
    {
      var latencies := ProgramLatencies(p);
      assert StripTimely(p.strips[n], n, latencies);
      var delay := if behind then latencies[n].preFader else latencies[n].input;
      assert ProcessorTimely(p.strips[n].RackAt(behind)[j], n, delay + PrefixLatency(p.strips[n].RackAt(behind)[..j]), latencies);
    }
  }

  /** Prepare, enter an epoch at `start`, render any sequence of blocks: every delivered frame is what the
      program means at the same Sequence sample of that epoch, sidechains and lookahead included, from the very first
      one on, and nothing fails without an excuse. */
  method Deliver<S(!new)>(p: Program<S>, ghost signal: (nat, int) -> Frame, read: SourceRead, epoch: Epoch, start: int, sizes: seq<nat>)
    returns (failure: Option<Failure>, delivered: Option<seq<Frame>>)
    requires p.Compiled() && ProgramCompensable(p) && SourceAgrees(read, signal, p.channels)
    ensures failure.None? == delivered.Some?
    ensures Obstacle(p).Some? ==> failure == Some(Unprepared(Obstacle(p).value))
    ensures failure.Some? ==> Excused(p, read, start, sizes, failure.value)
    ensures delivered.Some? ==>
              && |delivered.value| == Total(sizes)
              && forall i :: 0 <= i < |delivered.value| ==> delivered.value[i] == ProgramOutput(p, signal, start, start + i)
  {
    hide ProgramCompensable, AllCompensable, Planned, Extended, SidechainsTimed, Realizes, MixedPort, SidechainsLeadForward, SourceAgrees, LatencyFits, SidechainsTimely, TotalLatency, Reliable;
    var error, prepared, plan := PrepareSchedule(p);
    if error.Some? {
      return Some(Unprepared(error.value)), None;
    }
    RealizedCompensable(prepared.value, p);
    TimelyLeadsForward(p);
    var unrendered, pcm := Play(p, prepared.value, plan, signal, read, epoch, start, sizes);
    if unrendered.Some? {
      return Some(Unrendered(unrendered.value)), None;
    }
    return None, Some(pcm);
  }
}
