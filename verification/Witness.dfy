/** Concrete programs: what delivery demands can be met, a sidechain can come too late, and a processor without
    declared state that fails once silences its Session for good. */
module Witness {
  import opened Frames
  import opened Graph
  import opened Processors
  import opened SourceFrames
  import opened Schedule
  import opened Compensation
  import opened Preparation
  import opened Delivery
  import opened BuiltIns
  import opened Limiter
  import opened LimiterLaw
  import opened Host
  import opened Alignment
  import opened Render
  import opened Session
  import opened Playback
  import Latency
  import Transparency

  // ------------------------------------------------------------------ a processor that hears its sidechain

  /** The detector in place of the main input; without such a bus the main input stays. */
  function Copied(main: seq<Frame>, aux: seq<AuxFrame>): (out: seq<Frame>)
    ensures |out| == |main|
  {
    seq(|main|, i requires 0 <= i < |main| => if i < |aux| && |aux[i]| > 0 then aux[i][0] else main[i])
  }

  /** Its output is what arrives on its first auxiliary bus. */
  function Detector<S>(created: S): Processor<S> {
    Processor(0, false, created, _ => Some(created), (state, _, main, aux) => Some((state, Copied(main, aux))))
  }

  lemma CopiedSplits(a: seq<Frame>, b: seq<Frame>, xa: seq<AuxFrame>, xb: seq<AuxFrame>)
    requires |a| == |xa| && |b| == |xb|
    ensures Copied(a + b, xa + xb) == Copied(a, xa) + Copied(b, xb)
  {
    forall i | 0 <= i < |a| + |b|
      ensures Copied(a + b, xa + xb)[i] == (Copied(a, xa) + Copied(b, xb))[i]
    {
      assert (xa + xb)[i] == if i < |a| then xa[i] else xb[i - |a|];
    }
  }

  lemma DetectorIsCompensable<S(!new)>(created: S, channels: nat, buses: nat)
    ensures Compensable(Detector(created), channels, buses)
  {
    var p := Detector(created);
    forall state: S, start: int, a: seq<Frame>, b: seq<Frame>, xa: seq<AuxFrame>, xb: seq<AuxFrame> | |a| == |xa| && |b| == |xb|
      ensures SplitsAt(p, state, start, a, b, xa, xb)
    {
      CopiedSplits(a, b, xa, xb);
    }
    forall start: int, lead: nat, main: seq<Frame>, aux: seq<AuxFrame> | |aux| == |main|
      ensures SkipsSilence(p, channels, buses, start, lead, main, aux)
    {
      CopiedSplits(SilentFrames(channels, lead), main, SilentBuses(buses, channels, lead), aux);
      assert Copied(SilentFrames(channels, lead), SilentBuses(buses, channels, lead)) == SilentFrames(channels, lead);
    }
  }

  // ------------------------------------------------------------------ one track keys another

  function Clip<S>(track: nat, end: int, timeMap: TimeMap): PlannedContribution<S> {
    PlannedContribution(track, 0, end, timeMap, Constant(1.0), ConstantShape([1.0, 1.0]), false, [], [])
  }

  /** The first track is heard through one processor and feeds a detector that stands behind another processor of the second track. */
  function Keyed<S(!new)>(heard: Processor<S>, first: Processor<S>, gain: Gain, timeMap: TimeMap, end: int): Program<S> {
    Program(
      [Strip(Track(0), false, 1.0, Constant(1.0), [PlannedProcessor(heard, 0, [])], []),
       Strip(Track(1), false, 1.0, Constant(1.0),
             [PlannedProcessor(first, 0, []), PlannedProcessor(Detector(first.created), 1, [SidechainRoute(0, PostMute, 0, gain)])], []),
       Strip(Output(0), false, 1.0, Constant(1.0), [], [])],
      [Clip(0, end, timeMap), Clip(1, end, timeMap)],
      [PlannedRoute(0, 2, PostMute, gain), PlannedRoute(1, 2, PostMute, gain)],
      2, 48000, 512)
  }

  lemma RackOfOne<S>(a: PlannedProcessor<S>)
    ensures PrefixLatency([a]) == a.processor.latency
  {
    assert [a][..0] == [];
  }

  lemma RackOfTwo<S>(a: PlannedProcessor<S>, b: PlannedProcessor<S>)
    ensures PrefixLatency([a, b][..1]) == a.processor.latency && PrefixLatency([a, b][..0]) == 0
    ensures PrefixLatency([a, b]) == a.processor.latency + b.processor.latency
  {
    assert [a, b][..1] == [a];
    RackOfOne(a);
  }

  lemma KeyedLatencies<S(!new)>(heard: Processor<S>, first: Processor<S>, gain: Gain, timeMap: TimeMap, end: int)
    ensures var p := Keyed(heard, first, gain, timeMap, end);
            && LeadsForward(p) && |p.strips| == 3
            && StripLatency(p, 0) == NodeLatency(0, heard.latency, heard.latency)
            && StripLatency(p, 1) == NodeLatency(0, first.latency, first.latency)
            && StripLatency(p, 2) == var late := Later(heard.latency, first.latency); NodeLatency(late, late, late)
  {
    var p := Keyed(heard, first, gain, timeMap, end);
    RackOfOne(p.strips[0].pre[0]);
    RackOfTwo(p.strips[1].pre[0], p.strips[1].pre[1]);
    assert p.strips[1].pre == [p.strips[1].pre[0], p.strips[1].pre[1]];
    forall n | n < 2
      ensures LatestContribution(p, n, 2) == 0
    {
      assert LatestContribution(p, n, 0) == 0 && LatestContribution(p, n, 1) == 0;
    }
    assert StripLatency(p, 0) == NodeLatency(0, heard.latency, heard.latency);
    assert StripLatency(p, 1) == NodeLatency(0, first.latency, first.latency);
    assert LatestRoute(p, 2, 0) == 0;
    assert LatestRoute(p, 2, 1) == heard.latency;
    assert LatestRoute(p, 2, 2) == Later(heard.latency, first.latency);
  }

  lemma KeyedTimely<S(!new)>(heard: Processor<S>, first: Processor<S>, gain: Gain, timeMap: TimeMap, end: int)
    ensures var p := Keyed(heard, first, gain, timeMap, end);
            LeadsForward(p) && (SidechainsTimely(p) <==> heard.latency <= first.latency)
  {
    hide StripLatency, PrefixLatency;
    var p := Keyed(heard, first, gain, timeMap, end);
    KeyedLatencies(heard, first, gain, timeMap, end);
    var latencies := ProgramLatencies(p);
    var rack := p.strips[1].pre;
    RackOfTwo(rack[0], rack[1]);
    assert rack == [rack[0], rack[1]];
    assert latencies[0] == StripLatency(p, 0) && latencies[1] == StripLatency(p, 1) && latencies[2] == StripLatency(p, 2);
    assert StripTimely(p.strips[0], 0, latencies) && StripTimely(p.strips[2], 2, latencies);
    assert ProcessorTimely(rack[0], 1, 0, latencies);
    assert ProcessorTimely(rack[1], 1, first.latency, latencies) <==> Timely(rack[1].sidechains[0], 1, first.latency, 1, latencies);
    assert RackTimely(rack, 1, 0, latencies) <==> heard.latency <= first.latency;
  }

  /** Whatever the two processors are, as long as compensation can handle them: the program is acyclic and laid out,
      and it is refused exactly when what feeds the detector is later than its main input. */
  lemma KeyedDecides<S(!new)>(heard: Processor<S>, first: Processor<S>, gain: Gain, timeMap: TimeMap, end: int)
    requires timeMap.Valid() && Compensable(heard, 2, 0) && Compensable(first, 2, 0)
    requires heard.latency <= USIZE_MAX && first.latency <= USIZE_MAX
    ensures var p := Keyed(heard, first, gain, timeMap, end);
            && p.Compiled() && ProgramCompensable(p) && LeadsForward(p) && SidechainsLeadForward(p)
            && Obstacle(p) == if heard.latency > first.latency then Some(SidechainNotTimely) else None
  {
    hide Compensable, Streaming, StripLatency, SidechainsTimely;
    var p := Keyed(heard, first, gain, timeMap, end);
    DetectorIsCompensable(first.created, 2, 1);
    CompensableStreams(heard, 2, 0);
    CompensableStreams(first, 2, 0);
    CompensableStreams(Detector(first.created), 2, 1);
    KeyedLatencies(heard, first, gain, timeMap, end);
    KeyedTimely(heard, first, gain, timeMap, end);
  }

  lemma CompensableStreams<S(!new)>(p: Processor<S>, channels: nat, buses: nat)
    requires Compensable(p, channels, buses)
    ensures Streaming(p)
  {}

  /** Two limiters with steady ceilings: the one that keys must not look further ahead than the one that is keyed. */
  lemma KeyedLimiters(a: Settings, b: Settings, ceiling: real, release: int -> real, gain: Gain, timeMap: TimeMap, end: int)
    requires a.Valid() && b.Valid() && a.channels == b.channels == 2 && timeMap.Valid()
    requires a.lookahead <= USIZE_MAX && b.lookahead <= USIZE_MAX
    ensures var p := Keyed(LimiterProcessor(a, _ => ceiling, release), LimiterProcessor(b, _ => ceiling, release), gain, timeMap, end);
            && p.Compiled() && ProgramCompensable(p) && LeadsForward(p) && SidechainsLeadForward(p)
            && Obstacle(p) == if a.lookahead > b.lookahead then Some(SidechainNotTimely) else None
  {
    hide Compensable;
    LimiterIsCompensable(a, _ => ceiling, release, 0);
    LimiterIsCompensable(b, _ => ceiling, release, 0);
    KeyedDecides(LimiterProcessor(a, _ => ceiling, release), LimiterProcessor(b, _ => ceiling, release), gain, timeMap, end);
  }

  // ------------------------------------------------------------------ a stateless processor that fails once

  /** Without declared state, and failing on every block that covers sample `x`. */
  function Glitch(x: int): Processor<seq<Frame>> {
    Processor(0, false, [], _ => Some([]),
              (state, start, main, _) => if start <= x < start + |main| then None else Some((state, main)))
  }

  lemma GlitchStreams(x: int)
    ensures Streaming(Glitch(x))
  {}

  /** A track with the glitch in front of a built-in delay, routed to the output. */
  function Glitched(x: int, delay: nat, timeMap: TimeMap, end: int): Program<seq<Frame>> {
    Program(
      [Strip(Track(0), false, 1.0, Constant(1.0), [PlannedProcessor(Glitch(x), 0, []), PlannedProcessor(DelayProcessor(delay, 0, 2), 0, [])], []),
       Strip(Output(0), false, 1.0, Constant(1.0), [], [])],
      [Clip(0, end, timeMap)],
      [PlannedRoute(0, 1, PostMute, Constant(1.0))],
      2, 48000, 512)
  }

  lemma GlitchedIsPrepared(x: int, delay: nat, timeMap: TimeMap, end: int)
    requires timeMap.Valid()
    ensures var p := Glitched(x, delay, timeMap, end);
            && p.Compiled() && LeadsForward(p) && Obstacle(p) == None
            && StripLatency(p, 0) == StripLatency(p, 1) == NodeLatency(0, 0, 0)
  {
    hide Streaming;
    var p := Glitched(x, delay, timeMap, end);
    GlitchStreams(x);
    DelayStreams(delay, 0, 2);
    RackOfTwo(p.strips[0].pre[0], p.strips[0].pre[1]);
    assert p.strips[0].pre == [p.strips[0].pre[0], p.strips[0].pre[1]];
    assert LatestContribution(p, 0, 0) == 0;
    assert StripLatency(p, 0) == NodeLatency(0, 0, 0);
    assert LatestRoute(p, 1, 0) == 0;
  }

  /** What the prepared schedule of that program is. */
  ghost predicate RunsGlitched(s: Schedule<seq<Frame>>, x: int, delay: nat) {
    && s.WellFormed() && |s.nodes| == 2 && s.lookahead == 0 && s.maxBlock == 512 && s.channels == 2
    && s.nodes[0].origin.Track? && |s.nodes[0].preRack.slots| == 2
    && s.nodes[0].preRack.slots[0].processor == Glitch(x) && s.nodes[0].preRack.slots[0].inputDelay == 0
    && s.nodes[0].preRack.slots[1].processor == DelayProcessor(delay, 0, 2)
    && s.nodes[0].postRack.slots == s.nodes[1].preRack.slots == s.nodes[1].postRack.slots == []
    && |s.contributions| == 1 && s.contributions[0].rack.slots == []
  }

  lemma PreparedRunsGlitched(s: Schedule<seq<Frame>>, x: int, delay: nat, timeMap: TimeMap, end: int, plan: Latency.Plan)
    requires timeMap.Valid() && s.WellFormed()
    requires var p := Glitched(x, delay, timeMap, end);
             Realizes(s, p) && Transparency.Planned(s, plan) && Transparency.SidechainsTimed(s) && LeadsForward(p) && plan.latencies == ProgramLatencies(p)
    ensures RunsGlitched(s, x, delay)
  {
    hide RoutesInto, StripLatency, PrefixLatency, SlotLatencies, Latency.Solved;
    var p := Glitched(x, delay, timeMap, end);
    GlitchedIsPrepared(x, delay, timeMap, end);
    assert NodeRealized(s, 0, p) && NodeRealized(s, 1, p);
    assert ContributionRealized(s.contributions[0], p.contributions[0]);
    Transparency.SlotDelay(s, 0, false, 0);
    NoLatency(s.nodes[0].preRack.slots);
  }

  lemma DelayAlwaysRuns(delay: nat)
    ensures AlwaysRuns(DelayProcessor(delay, 0, 2))
  {
    DelayIsCompensable(delay, 0, 2, 0);
    CompensableRuns(DelayProcessor(delay, 0, 2), 2, 0);
  }

  lemma GlitchedEnters(s: Schedule<seq<Frame>>, x: int, delay: nat, start: int)
    requires RunsGlitched(s, x, delay) && delay > 0
    ensures PlanEnters(s, start) && StatefulPlanRuns(s) && s.requiresStateEntry
  {
    hide AlwaysRuns, Schedule.WellFormed;
    DelayAlwaysRuns(delay);
    forall n | 0 <= n < 2
      ensures NodeEnters(s, n, start)
    {}
    NeedsItsEntry(s, x, delay);
  }

  lemma NeedsItsEntry(s: Schedule<seq<Frame>>, x: int, delay: nat)
    requires RunsGlitched(s, x, delay) && delay > 0
    ensures s.requiresStateEntry
  {
    hide Schedule.NodeInPlace, Schedule.RouteInPlace, Schedule.ContributionInPlace, Schedule.SnapshotTaken, Schedule.SlotKept;
    assert s.nodes[0].preRack.slots[1].processor.requiresStateEntry;
    assert s.Historyless() ==> s.StatelessRack(s.nodes[0].preRack);
  }

  /** Behind the glitch its instance has failed. */
  lemma FailedBehindGlitch(w: World<seq<Frame>>, h: History<seq<Frame>>, x: int, delay: nat)
    requires RunsGlitched(w.schedule, x, delay) && w.entry == x && Shaped(w.schedule, h)
    requires AllAligned(w, h, 0, 2, x + 1)
    ensures !NoInstanceFailed(h)
  {
    hide RackInputAt, AuxAt, Shaped, Schedule.WellFormed;
    SameRacks(w.schedule, h);
    assert NodeAligned(w, h, 0, x + 1);
    var slots, instances := w.schedule.nodes[0].preRack.slots, h.preRacks[0].instances;
    var main, aux := RackInput(w, 0, false, 1), AuxHistory(w, 0, false, 1);
    assert RackAligned(w, 0, false, h.preRacks[0], x + 1);
    assert Stage(slots, 0, x, main, aux) == Some(main);
    assert Ready(slots, 0, instances[0], x, main, aux) && instances[0].continuity.Failed?;
    assert !NoneFailed(h.preRacks[0]);
  }

  method PrepareGlitched(x: int, delay: nat, timeMap: TimeMap, end: int) returns (s: Schedule<seq<Frame>>)
    requires timeMap.Valid() && delay > 0
    ensures RunsGlitched(s, x, delay) && s.requiresStateEntry && PlanEnters(s, x) && StatefulPlanRuns(s)
  {
    hide Obstacle, Realizes, Transparency.Planned, Transparency.Extended, Transparency.SidechainsTimed, RunsGlitched, PlanEnters, StatefulPlanRuns,
         Schedule.WellFormed, ProgramLatencies;
    var p := Glitched(x, delay, timeMap, end);
    GlitchedIsPrepared(x, delay, timeMap, end);
    var refused, prepared, plan := PrepareSchedule(p);
    s := prepared.value;
    PreparedRunsGlitched(s, x, delay, timeMap, end, plan);
    GlitchedEnters(s, x, delay, x);
  }

  /** Entered at the glitch, the Session fails on its first block and is stuck. */
  method FailAtGlitch(s: Schedule<seq<Frame>>, x: int, delay: nat, epoch: Epoch, read: SourceRead)
    returns (session: AudioRenderSession<seq<Frame>>, error: Option<RenderError>)
    requires RunsGlitched(s, x, delay) && s.requiresStateEntry && PlanEnters(s, x) && StatefulPlanRuns(s) && x + 1 <= I64_MAX
    requires SourceAgrees(read, (k, f) => Silence(2), 2) && Reliable(read)
    ensures fresh(session) && session.Valid() && session.schedule == s && SourceAgrees(read, session.signal, s.channels)
    ensures error == Some(ExecutionFailed(ProcessorFailed))
    ensures session.continuity == Poisoned(epoch) && Stuck(s, session.history)
  {
    hide Shaped, NoInstanceFailed, AllAligned, PlanEnters, StatefulPlanRuns, StatelessPlanRuns, Stuck, NodesStuck, PlanCulprit, Reliable, PublicAt,
         RunsGlitched, Schedule.WellFormed, SourceAgrees, HistoryMoves, Gapless;
    GlitchedSizes(s, x, delay);
    session := new AudioRenderSession(s, (k, f) => Silence(2));
    WholeIsNotStuck(s, session.history);
    error := session.EnterState(epoch, x);
    var destination := new Frame[1](_ => []);
    error := session.RenderInto(read, x, 1, destination);
    if error.None? {
      FailedBehindGlitch(World(s, session.signal, x), session.history, x, delay);
    }
    SameRacks(s, session.history);
    CulpritSticks(s, session.history);
  }

  /** A block at the glitch fails, and from then on every call of any kind does, in whatever epoch. */
  method GlitchIsFinal(x: int, delay: nat, timeMap: TimeMap, end: int, epoch: Epoch, calls: seq<Call>)
    returns (error: Option<RenderError>, events: seq<Event>)
    requires timeMap.Valid() && delay > 0 && x + 1 <= I64_MAX
    ensures error == Some(ExecutionFailed(ProcessorFailed))
    ensures |events| == |calls| && forall i :: 0 <= i < |calls| ==> Records(calls[i], events[i]) && !events[i].succeeded
  {
    hide RunsGlitched, PlanEnters, StatefulPlanRuns, StatelessPlanRuns, Stuck, NodesStuck, Reliable, SourceAgrees, Replay, AudioRenderSession.Valid;
    var s := PrepareGlitched(x, delay, timeMap, end);
    var read: SourceRead := (k, demand) => Some(seq(|demand|, _ => Silence(2)));
    QuietRead(read);
    var session;
    session, error := FailAtGlitch(s, x, delay, epoch, read);
    events := Drive(session, read, calls);
  }

  lemma QuietRead(read: SourceRead)
    requires forall k: nat, demand: seq<int> :: read(k, demand) == Some(seq(|demand|, _ => Silence(2)))
    ensures SourceAgrees(read, (k, f) => Silence(2), 2) && Reliable(read)
  {}

  lemma GlitchedSizes(s: Schedule<seq<Frame>>, x: int, delay: nat)
    requires RunsGlitched(s, x, delay)
    ensures s.WellFormed() && s.lookahead == 0 && s.maxBlock == 512 && |s.nodes| == 2 && s.channels == 2
  {}

  lemma SameRacks<S(!new)>(s: Schedule<S>, h: History<S>)
    requires Shaped(s, h)
    ensures |h.preRacks| == |h.postRacks| == |s.nodes|
  {}
}
