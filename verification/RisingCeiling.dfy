/** A concrete program that is not delivered as what it means: a limiter with a rising ceiling behind the latency of
    another one. */
module RisingCeiling {
  import opened Frames
  import opened Graph
  import opened Processors
  import opened SourceFrames
  import opened Schedule
  import opened Compensation
  import opened Preparation
  import opened ProgramMix
  import opened PeakWindow
  import opened Limiter
  import opened BuiltIns
  import opened LimiterLaw
  import opened LimiterSamples
  import opened Host
  import opened Render
  import opened Session
  import opened Playback
  import opened Delivery
  import Latency
  import Transparency
  import Witness

  // ------------------------------------------------------------------ a limiter that has nothing to do

  ghost predicate Quiet(s: Settings, level: real, main: seq<Frame>)
    requires s.Valid()
  {
    forall i, c :: 0 <= i < |main| && 0 <= c < |main[i]| ==> -s.dbToLinear(level) <= main[i][c] <= s.dbToLinear(level)
  }

  lemma {:induction false} QuietGain(s: Settings, level: real, release: int -> real, start: int, main: seq<Frame>, n: nat)
    requires s.Valid() && n < |main| && Quiet(s, level, main)
    ensures GainAt(s, BlockFeed(_ => level, release, start, main), n) == 1.0
    decreases n
  {
    var f := BlockFeed(_ => level, release, start, main);
    if n >= s.lookahead {
      if n > 0 {
        QuietGain(s, level, release, start, main, n - 1);
      }
      hide GainAt;
      PassesThrough(s, f, n);
    }
  }

  /** Below a steady ceiling the limiter only delays. */
  lemma QuietPasses(s: Settings, level: real, release: int -> real, start: int, main: seq<Frame>, aux: seq<AuxFrame>)
    requires s.Valid() && Quiet(s, level, main)
    ensures var run := Run(LimiterProcessor(s, _ => level, release), start, main, aux);
            run.Some? && run.value.1 == Shifted(main, s.lookahead, s.channels)
  {
    hide GainAt, OutputAt, Quiet, CeilingAt, TargetAt, PeakOf;
    var f := BlockFeed(_ => level, release, start, main);
    LimiterRun(s, _ => level, release, start, main, aux);
    forall n | 0 <= n < |main|
      ensures OutputAt(s, f, n) == Shifted(main, s.lookahead, s.channels)[n]
    {
      QuietGain(s, level, release, start, main, n);
      Brickwall(s, f, n);
      ScaleByOne(DelayedFrame(s, f, n));
    }
  }

  lemma ScaleByOne(frame: Frame)
    ensures Scale(frame, 1.0) == frame
  {}

  /** A frame of two channels goes through strips at unity gain as it is. */
  lemma Unity(frame: Frame)
    requires |frame| == 2
    ensures Add(Silence(2), frame) == frame && Shape(frame, [1.0, 1.0]) == frame
  {}

  // ------------------------------------------------------------------ the program

  ghost predicate Rises(s: Settings, ceiling: int -> real, release: int -> real, t: int, lead: nat) {
    && s.Valid() && s.channels == 2 && s.lookahead > 0 && lead > 0 && lead + s.lookahead <= USIZE_MAX
    && !HoldsDown(s, ceiling, release, t)
  }

  /** The first limiter looks `lead` samples ahead, under the steady ceiling that the second one has at `t`. */
  ghost function Steady(s: Settings, ceiling: int -> real, release: int -> real, t: int, lead: nat): Processor<Feed>
    requires s.Valid()
  {
    LimiterProcessor(s.(lookahead := lead), _ => ceiling(t), release)
  }

  /** A track with one clip of a single sample at `t`, both limiters in its rack, routed to the output. */
  ghost function Rising(s: Settings, ceiling: int -> real, release: int -> real, t: int, lead: nat, timeMap: TimeMap): Program<Feed>
    requires s.Valid()
  {
    Program(
      [Strip(Track(0), false, 1.0, Constant(1.0),
             [PlannedProcessor(Steady(s, ceiling, release, t, lead), 0, []), PlannedProcessor(LimiterProcessor(s, ceiling, release), 0, [])], []),
       Strip(Output(0), false, 1.0, Constant(1.0), [], [])],
      [PlannedContribution(0, t, t + 1, timeMap, Constant(1.0), ConstantShape([1.0, 1.0]), false, [], [])],
      [PlannedRoute(0, 1, PostMute, Constant(1.0))],
      2, 48000, 512)
  }

  lemma RisingIsPrepared(s: Settings, ceiling: int -> real, release: int -> real, t: int, lead: nat, timeMap: TimeMap)
    requires Rises(s, ceiling, release, t, lead) && timeMap.Valid()
    ensures var p := Rising(s, ceiling, release, t, lead, timeMap);
            && Acyclic(p) && Obstacle(p) == None
            && StripLatency(p, 0) == NodeLatency(0, lead + s.lookahead, lead + s.lookahead)
            && StripLatency(p, 1) == NodeLatency(lead + s.lookahead, lead + s.lookahead, lead + s.lookahead)
  {
    hide Streaming, HoldsDown;
    var p := Rising(s, ceiling, release, t, lead, timeMap);
    LimiterStreams(s.(lookahead := lead), _ => ceiling(t), release);
    LimiterStreams(s, ceiling, release);
    Witness.RackOfTwo(p.strips[0].pre[0], p.strips[0].pre[1]);
    assert p.strips[0].pre == [p.strips[0].pre[0], p.strips[0].pre[1]];
    assert LatestContribution(p, 0, 0) == 0;
    assert StripLatency(p, 0) == NodeLatency(0, lead + s.lookahead, lead + s.lookahead);
    assert LatestRoute(p, 1, 0) == 0;
  }

  /** What the prepared schedule of that program is. */
  ghost predicate RunsRising(sch: Schedule<Feed>, s: Settings, ceiling: int -> real, release: int -> real, t: int, lead: nat, timeMap: TimeMap)
    requires s.Valid()
  {
    && sch.WellFormed() && |sch.nodes| == 2 && sch.channels == 2 && sch.rate == 48000 && sch.lookahead == lead + s.lookahead && sch.requiresStateEntry
    && StripAsIs(sch.nodes[0]) && sch.nodes[0].origin.Track? && StripAsIs(sch.nodes[1]) && sch.nodes[1].origin.Output?
    && |sch.nodes[0].preRack.slots| == 2
    && sch.nodes[0].preRack.slots[0] == Slot(Steady(s, ceiling, release, t, lead), 0)
    && sch.nodes[0].preRack.slots[1] == Slot(LimiterProcessor(s, ceiling, release), lead)
    && sch.nodes[1].preRack.slots == []
    && sch.nodes[1].incomingStart + 1 == sch.nodes[1].incomingEnd <= |sch.routes|
    && sch.routes[sch.nodes[1].incomingStart] == Route(0, 1, PostMute, Constant(1.0), 0)
    && sch.nodes[0].contributionStart == 0 && sch.nodes[0].contributionEnd == 1 == |sch.contributions|
    && ClipAsIs(sch.contributions[0], t, timeMap)
  }

  ghost predicate StripAsIs(node: Node<Feed>) {
    !node.muted && node.trim == 1.0 && node.fader == Constant(1.0) && node.postRack.slots == []
  }

  ghost predicate ClipAsIs(c: Contribution<Feed>, t: int, timeMap: TimeMap) {
    && c.timeMap == timeMap && c.start == t && c.end == t + 1 && c.executionEnd == Some(t + 1) && c.rack.slots == [] && c.compensation == 0
    && c.sourceLatency == 0 && c.rackLatency == 0 && c.scopeGain == Constant(1.0) && c.editGain == ConstantShape([1.0, 1.0])
  }

  lemma PreparedRunsRising(sch: Schedule<Feed>, s: Settings, ceiling: int -> real, release: int -> real, t: int, lead: nat, timeMap: TimeMap, plan: Latency.Plan)
    requires Rises(s, ceiling, release, t, lead) && timeMap.Valid()
    requires var p := Rising(s, ceiling, release, t, lead, timeMap);
             && Stands(sch, p) && Transparency.Planned(sch, plan) && Transparency.SidechainsTimed(sch) && plan.latencies == ProgramLatencies(p)
    ensures RunsRising(sch, s, ceiling, release, t, lead, timeMap)
  {
    hide RoutesInto, StripLatency, PrefixLatency, SlotLatencies, Latency.Solved, HoldsDown, LimiterProcessor, Transparency.SidechainsTimed;
    var p := Rising(s, ceiling, release, t, lead, timeMap);
    RisingIsPrepared(s, ceiling, release, t, lead, timeMap);
    assert NodeRealized(sch, 0, p) && NodeRealized(sch, 1, p);
    assert ContributionRealized(sch.contributions[0], p.contributions[0]);
    assert sch.nodes[0].latency == StripLatency(p, 0) && sch.nodes[1].latency == StripLatency(p, 1);
    RisingSlots(sch, s, ceiling, release, t, lead, timeMap);
    RisingRoute(sch, s, ceiling, release, t, lead, timeMap, plan);
    RisingClip(sch, s, ceiling, release, t, lead, timeMap, plan);
    RisingNeedsEntry(sch);
  }

  lemma RisingSlots(sch: Schedule<Feed>, s: Settings, ceiling: int -> real, release: int -> real, t: int, lead: nat, timeMap: TimeMap)
    requires Rises(s, ceiling, release, t, lead) && timeMap.Valid()
    requires Stands(sch, Rising(s, ceiling, release, t, lead, timeMap)) && Transparency.SidechainsTimed(sch)
    requires |sch.nodes| == 2 && sch.nodes[0].latency.input == 0
    ensures |sch.nodes[0].preRack.slots| == 2
    ensures sch.nodes[0].preRack.slots[0] == Slot(Steady(s, ceiling, release, t, lead), 0)
    ensures sch.nodes[0].preRack.slots[1] == Slot(LimiterProcessor(s, ceiling, release), lead)
    ensures sch.nodes[0].preRack.slots[1].processor.requiresStateEntry
  {
    hide RoutesInto, PrefixLatency, HoldsDown, Acyclic;
    assert NodeRealized(sch, 0, Rising(s, ceiling, release, t, lead, timeMap));
    var slots := sch.nodes[0].preRack.slots;
    Transparency.SlotDelay(sch, 0, false, 0);
    Transparency.SlotDelay(sch, 0, false, 1);
    NoLatency(slots);
    assert slots[..1][..0] == slots[..0];
  }

  lemma RisingRoute(sch: Schedule<Feed>, s: Settings, ceiling: int -> real, release: int -> real, t: int, lead: nat, timeMap: TimeMap, plan: Latency.Plan)
    requires Rises(s, ceiling, release, t, lead) && timeMap.Valid()
    requires Stands(sch, Rising(s, ceiling, release, t, lead, timeMap)) && Transparency.Planned(sch, plan)
    requires |sch.nodes| == 2 && sch.nodes[0].latency.postFader == sch.nodes[1].latency.input
    ensures sch.nodes[1].incomingStart + 1 == sch.nodes[1].incomingEnd <= |sch.routes|
    ensures sch.routes[sch.nodes[1].incomingStart] == Route(0, 1, PostMute, Constant(1.0), 0)
  {
    hide HoldsDown, Acyclic, Realizes, Transparency.Planned, Schedule.WellFormed, LimiterProcessor;
    var p := Rising(s, ceiling, release, t, lead, timeMap);
    OneRoute(p.routes[0]);
    assert p.routes == [p.routes[0]];
    RouteOf(sch, p, 1, 0);
    Transparency.RouteEquation(sch, plan, sch.nodes[1].incomingStart);
  }

  lemma OneRoute(route: PlannedRoute)
    ensures RoutesInto([route], route.destination) == [route]
  {
    assert [route][..0] == [];
  }

  lemma RisingClip(sch: Schedule<Feed>, s: Settings, ceiling: int -> real, release: int -> real, t: int, lead: nat, timeMap: TimeMap, plan: Latency.Plan)
    requires Rises(s, ceiling, release, t, lead) && timeMap.Valid()
    requires Stands(sch, Rising(s, ceiling, release, t, lead, timeMap)) && Transparency.Planned(sch, plan)
    requires |sch.nodes| == 2 && sch.nodes[0].latency.input == 0
    ensures |sch.contributions| == 1 && ClipAsIs(sch.contributions[0], t, timeMap)
    ensures sch.nodes[0].contributionStart == 0 && sch.nodes[0].contributionEnd == 1
  {
    hide RoutesInto, HoldsDown, LimiterProcessor, Transparency.Planned, Acyclic;
    var p := Rising(s, ceiling, release, t, lead, timeMap);
    assert ContributionRealized(sch.contributions[0], p.contributions[0]);
    Transparency.ContributionEquation(sch, plan, 0);
    InRange(sch, p, 0, 0);
  }

  lemma RisingNeedsEntry(sch: Schedule<Feed>)
    requires sch.WellFormed() && |sch.nodes| == 2 && |sch.nodes[0].preRack.slots| == 2 && sch.nodes[0].preRack.slots[1].processor.requiresStateEntry
    ensures sch.requiresStateEntry
  {
    hide Schedule.NodeInPlace, Schedule.RouteInPlace, Schedule.ContributionInPlace, Schedule.SnapshotTaken, Schedule.SlotKept;
    assert sch.Historyless() ==> sch.StatelessRack(sch.nodes[0].preRack);
  }

  // ------------------------------------------------------------------ what it carries and what it means

  /** The clip plays the click, entered at its only sample. */
  ghost predicate PlaysClick(w: World<Feed>, s: Settings, ceiling: int -> real, release: int -> real, t: int, lead: nat, timeMap: TimeMap) {
    && Rises(s, ceiling, release, t, lead) && RunsRising(w.schedule, s, ceiling, release, t, lead, timeMap) && w.entry == t
    && timeMap.Valid() && timeMap.FrameAt(48000, t) >= 0
    && (forall f: int :: w.signal(0, f) == ClickFrame(s, ceiling, t))
  }

  ghost function Played(s: Settings, ceiling: int -> real, t: int, e: int): Frame
    requires s.Valid() && s.channels == 2
  {
    if e == t then ClickFrame(s, ceiling, t) else Silence(2)
  }

  lemma NothingButClip(sch: Schedule<Feed>)
    requires sch.WellFormed() && |sch.contributions| == 1
    ensures sch.ContributionInPlace(0)
  {}

  lemma ClipPlays(w: World<Feed>, s: Settings, ceiling: int -> real, release: int -> real, t: int, lead: nat, timeMap: TimeMap, e: int)
    requires PlaysClick(w, s, ceiling, release, t, lead, timeMap) && e >= t
    ensures ContributionAt(w, 0, e) == Transparency.IdealContribution(w, 0, e) == Played(s, ceiling, t, e)
  {
    hide HoldsDown, LimiterProcessor, Schedule.WellFormed;
    assert w.schedule.WellFormed() && w.schedule.ContributionInPlace(0) by {
      NothingButClip(w.schedule);
    }
    if e == t {
      var click := ClickFrame(s, ceiling, t);
      assert SourceAt(w, 0, t) == click;
      ScaleByOne(click);
      Unity(click);
      var c, input := w.schedule.contributions[0], ScopeInput(w, 0, 1);
      assert RackStart(w, c) == t;
      assert input[0] == Scale(SourceAt(w, 0, RackStart(w, c) + 0), c.scopeGain.At(RackStart(w, c) + 0 - c.sourceLatency));
      assert input[0] == click;
    }
  }

  lemma InputPlays(w: World<Feed>, s: Settings, ceiling: int -> real, release: int -> real, t: int, lead: nat, timeMap: TimeMap, e: int)
    requires PlaysClick(w, s, ceiling, release, t, lead, timeMap) && e >= t
    ensures RackInputAt(w, 0, false, e) == Transparency.IdealRackInput(w, 0, false, e) == Played(s, ceiling, t, e)
  {
    hide HoldsDown, LimiterProcessor, ContributionAt, Transparency.IdealContribution, Schedule.WellFormed;
    ClipPlays(w, s, ceiling, release, t, lead, timeMap, e);
    var played := Played(s, ceiling, t, e);
    Unity(played);
    ScaleByOne(played);
    assert SumContributions(w, 0, 0, e) == Transparency.IdealContributions(w, 0, 0, e) == Silence(2);
    assert SumContributions(w, 0, 1, e) == Transparency.IdealContributions(w, 0, 1, e) == Add(Silence(2), played);
  }

  ghost function PlayedInput(s: Settings, ceiling: int -> real, t: int, n: nat): (main: seq<Frame>)
    requires s.Valid() && s.channels == 2
    ensures |main| == n + 1
  {
    [ClickFrame(s, ceiling, t)] + SilentFrames(2, n)
  }

  lemma MainPlays(w: World<Feed>, s: Settings, ceiling: int -> real, release: int -> real, t: int, lead: nat, timeMap: TimeMap, n: nat)
    requires PlaysClick(w, s, ceiling, release, t, lead, timeMap)
    ensures RackInput(w, 0, false, n + 1) == Transparency.IdealMain(w, 0, false, n + 1) == PlayedInput(s, ceiling, t, n)
  {
    hide RackInputAt, Transparency.IdealRackInput, HoldsDown, LimiterProcessor;
    var late, ideal, played := RackInput(w, 0, false, n + 1), Transparency.IdealMain(w, 0, false, n + 1), PlayedInput(s, ceiling, t, n);
    forall i | 0 <= i < n + 1
      ensures late[i] == ideal[i] == played[i]
    {
      InputPlays(w, s, ceiling, release, t, lead, timeMap, t + i);
    }
  }

  lemma InputIsQuiet(s: Settings, ceiling: int -> real, release: int -> real, t: int, lead: nat, n: nat)
    requires Rises(s, ceiling, release, t, lead)
    ensures Quiet(s.(lookahead := lead), ceiling(t), PlayedInput(s, ceiling, t, n))
  {
    hide HoldsDown;
  }

  ghost predicate IsRack(slots: seq<Slot<Feed>>, s: Settings, ceiling: int -> real, release: int -> real, t: int, lead: nat)
    requires s.Valid()
  {
    slots == [Slot(Steady(s, ceiling, release, t, lead), 0), Slot(LimiterProcessor(s, ceiling, release), lead)]
  }

  /** The first limiter hands on the click as it is, late by its latency. */
  lemma SteadyPasses(s: Settings, ceiling: int -> real, release: int -> real, t: int, lead: nat, n: nat, aux: seq<AuxFrame>)
    requires Rises(s, ceiling, release, t, lead) && n == lead + s.lookahead
    ensures var run := Run(Steady(s, ceiling, release, t, lead), t, PlayedInput(s, ceiling, t, n), aux);
            run.Some? && run.value.1 == SilentFrames(2, lead) + Click(s, ceiling, t)
  {
    hide HoldsDown, Run;
    var main := PlayedInput(s, ceiling, t, n);
    InputIsQuiet(s, ceiling, release, t, lead, n);
    QuietPasses(s.(lookahead := lead), ceiling(t), release, t, main, aux);
    assert main[..n + 1 - lead] == Click(s, ceiling, t);
    assert Shifted(main, lead, 2) == SilentFrames(2, lead) + main[..n + 1 - lead];
  }

  /** So the second one is entered `lead` samples before its first frame. */
  lemma LateRack(slots: seq<Slot<Feed>>, s: Settings, ceiling: int -> real, release: int -> real, t: int, lead: nat, aux: seq<seq<AuxFrame>>)
    requires Rises(s, ceiling, release, t, lead) && IsRack(slots, s, ceiling, release, t, lead) && |aux| == 2
    ensures var n, g := lead + s.lookahead, Early(s, ceiling, release, t - lead, lead, Click(s, ceiling, t));
            Stage(slots, 2, t, PlayedInput(s, ceiling, t, n), aux) == Some(Outputs(s, g, 0, n + 1))
  {
    hide HoldsDown, Run, Outputs, Click, PlayedInput, LimiterProcessor;
    var main := PlayedInput(s, ceiling, t, lead + s.lookahead);
    SteadyPasses(s, ceiling, release, t, lead, lead + s.lookahead, aux[0]);
    var passed := SilentFrames(2, lead) + Click(s, ceiling, t);
    LimiterRun(s, ceiling, release, t - lead, passed, aux[1]);
    assert Stage(slots, 0, t, main, aux) == Some(main);
    assert Stage(slots, 1, t, main, aux) == Some(passed);
  }

  /** Without delays it is entered with it. */
  lemma IdealRack(slots: seq<Slot<Feed>>, s: Settings, ceiling: int -> real, release: int -> real, t: int, lead: nat, aux: seq<seq<AuxFrame>>)
    requires Rises(s, ceiling, release, t, lead) && IsRack(slots, s, ceiling, release, t, lead)
    requires |aux| == 2 && |aux[0]| == |aux[1]| == lead + s.lookahead + 1
    ensures var f := BlockFeed(ceiling, release, t, Click(s, ceiling, t));
            Advanced(slots, 2, t, PlayedInput(s, ceiling, t, lead + s.lookahead), aux) == Some([OutputAt(s, f, s.lookahead)])
  {
    hide HoldsDown, Run, OutputAt, PlayedInput, BlockFeed;
    var main, click := PlayedInput(s, ceiling, t, lead + s.lookahead), Click(s, ceiling, t);
    SteadyPasses(s, ceiling, release, t, lead, lead + s.lookahead, aux[0][..|main|]);
    assert Behind(SilentFrames(2, lead) + click, lead) == click;
    LimiterRun(s, ceiling, release, t, click, aux[1][..|click|]);
    var out := Outputs(s, BlockFeed(ceiling, release, t, click), 0, |click|);
    assert Advanced(slots, 0, t, main, aux) == Some(main);
    assert Advanced(slots, 1, t, main, aux) == Some(click);
    assert Behind(out, s.lookahead) == [OutputAt(s, BlockFeed(ceiling, release, t, click), s.lookahead)];
  }

  lemma SlotsLookAhead(slots: seq<Slot<Feed>>, s: Settings, ceiling: int -> real, release: int -> real, t: int, lead: nat)
    requires s.Valid() && IsRack(slots, s, ceiling, release, t, lead)
    ensures SlotLatencies(slots) == lead + s.lookahead
  {
    NoLatency(slots);
    assert slots[..1][..0] == slots[..0];
  }

  lemma LateOutput(w: World<Feed>, s: Settings, ceiling: int -> real, release: int -> real, t: int, lead: nat, timeMap: TimeMap)
    requires PlaysClick(w, s, ceiling, release, t, lead, timeMap)
    ensures var n, g := lead + s.lookahead, Early(s, ceiling, release, t - lead, lead, Click(s, ceiling, t));
            RackOutputAt(w, 0, false, t + n) == OutputAt(s, g, n)
  {
    hide HoldsDown, Stage, OutputAt, RackInput, AuxHistory, LimiterProcessor, PlayedInput;
    var n, slots := lead + s.lookahead, w.schedule.nodes[0].preRack.slots;
    assert IsRack(slots, s, ceiling, release, t, lead);
    MainPlays(w, s, ceiling, release, t, lead, timeMap, n);
    LateRack(slots, s, ceiling, release, t, lead, AuxHistory(w, 0, false, n + 1));
  }

  lemma IdealOutput(w: World<Feed>, s: Settings, ceiling: int -> real, release: int -> real, t: int, lead: nat, timeMap: TimeMap)
    requires PlaysClick(w, s, ceiling, release, t, lead, timeMap)
    ensures var f := BlockFeed(ceiling, release, t, Click(s, ceiling, t));
            Transparency.IdealRackOutput(w, 0, false, t) == OutputAt(s, f, s.lookahead)
  {
    hide HoldsDown, Advanced, OutputAt, Transparency.IdealMain, Transparency.IdealAuxes, LimiterProcessor, PlayedInput, SlotLatencies;
    var n, slots := lead + s.lookahead, w.schedule.nodes[0].preRack.slots;
    assert IsRack(slots, s, ceiling, release, t, lead);
    SlotsLookAhead(slots, s, ceiling, release, t, lead);
    MainPlays(w, s, ceiling, release, t, lead, timeMap, n);
    IdealRack(slots, s, ceiling, release, t, lead, Transparency.IdealAuxes(w, 0, false, n + 1));
  }

  /** Behind its rack nothing changes the frame any more. */
  lemma TrackCarries(w: World<Feed>, s: Settings, ceiling: int -> real, release: int -> real, t: int, lead: nat, timeMap: TimeMap, e: int)
    requires PlaysClick(w, s, ceiling, release, t, lead, timeMap) && e >= t
    ensures PortAt(w, 0, PostMute, e) == RackOutputAt(w, 0, false, e)
    ensures Transparency.IdealPort(w, 0, PostMute, e) == Transparency.IdealRackOutput(w, 0, false, e)
  {
    hide HoldsDown, LimiterProcessor, InputAt, Transparency.IdealInput, Transparency.IdealMain, Transparency.IdealAuxes, AuxHistory;
    EmptyRack(w, 0, true, e);
    ScaleByOne(RackOutputAt(w, 0, false, e));
    ScaleByOne(Transparency.IdealRackOutput(w, 0, false, e));
  }

  lemma EmptyRack(w: World<Feed>, n: nat, post: bool, e: int)
    requires w.schedule.WellFormed() && n < |w.schedule.nodes| && w.schedule.nodes[n].RackAt(post).slots == [] && e >= w.entry
    ensures RackOutputAt(w, n, post, e) == RackInputAt(w, n, post, e)
    ensures Transparency.IdealRackOutput(w, n, post, e) == Transparency.IdealRackInput(w, n, post, e)
  {
    hide RackInputAt, AuxHistory, Transparency.IdealRackInput;
    Transparency.DelaysVanish(w, n, post, e);
    assert RackInput(w, n, post, e + 1 - w.entry)[e - w.entry] == RackInputAt(w, n, post, e);
  }

  lemma OutputCarries(w: World<Feed>, s: Settings, ceiling: int -> real, release: int -> real, t: int, lead: nat, timeMap: TimeMap, e: int)
    requires PlaysClick(w, s, ceiling, release, t, lead, timeMap) && e >= t
    ensures |PortAt(w, 0, PostMute, e)| == 2 ==> PortAt(w, 1, PostMute, e) == PortAt(w, 0, PostMute, e)
    ensures |Transparency.IdealPort(w, 0, PostMute, e)| == 2 ==>
              Transparency.IdealPort(w, 1, PostMute, e) == Transparency.IdealPort(w, 0, PostMute, e)
  {
    hide HoldsDown, LimiterProcessor, RackOutputAt, Transparency.IdealRackOutput, Schedule.WellFormed;
    var late, ideal := PortAt(w, 0, PostMute, e), Transparency.IdealPort(w, 0, PostMute, e);
    OutputSums(w, s, ceiling, release, t, lead, timeMap, e);
    EmptyRack(w, 1, false, e);
    EmptyRack(w, 1, true, e);
    ScaleByOne(late);
    ScaleByOne(ideal);
    if |late| == 2 {
      Unity(late);
    }
    if |ideal| == 2 {
      Unity(ideal);
    }
  }

  lemma OutputSums(w: World<Feed>, s: Settings, ceiling: int -> real, release: int -> real, t: int, lead: nat, timeMap: TimeMap, e: int)
    requires PlaysClick(w, s, ceiling, release, t, lead, timeMap) && e >= t
    ensures InputAt(w, 1, e) == Add(Silence(2), Scale(PortAt(w, 0, PostMute, e), 1.0))
    ensures Transparency.IdealInput(w, 1, e) == Add(Silence(2), Scale(Transparency.IdealPort(w, 0, PostMute, e), 1.0))
  {
    hide HoldsDown, LimiterProcessor, PortAt, Transparency.IdealPort, Schedule.WellFormed;
    var start := w.schedule.nodes[1].incomingStart;
    assert SumRoutes(w, 1, start, e) == Transparency.IdealRoutes(w, 1, start, e) == Silence(2);
    assert SumRoutes(w, 1, start + 1, e) == Add(Silence(2), Scale(PortAt(w, 0, PostMute, e), 1.0));
    assert Transparency.IdealRoutes(w, 1, start + 1, e) == Add(Silence(2), Scale(Transparency.IdealPort(w, 0, PostMute, e), 1.0));
  }

  /** The public output at the first sample is not the mix without delays. */
  lemma PublicDiffers(w: World<Feed>, s: Settings, ceiling: int -> real, release: int -> real, t: int, lead: nat, timeMap: TimeMap)
    requires PlaysClick(w, s, ceiling, release, t, lead, timeMap)
    ensures PublicAt(w, t) != Transparency.IdealPort(w, 1, PostMute, t)
  {
    hide HoldsDown, LimiterProcessor, PortAt, Transparency.IdealPort, RackOutputAt, Transparency.IdealRackOutput, GainAt, CeilingAt, Early, BlockFeed, Click;
    var n := lead + s.lookahead;
    LateOutput(w, s, ceiling, release, t, lead, timeMap);
    IdealOutput(w, s, ceiling, release, t, lead, timeMap);
    ClickDiffers(s, ceiling, release, t, lead);
    TrackCarries(w, s, ceiling, release, t, lead, timeMap, t + n);
    TrackCarries(w, s, ceiling, release, t, lead, timeMap, t);
    OutputCarries(w, s, ceiling, release, t, lead, timeMap, t + n);
    OutputCarries(w, s, ceiling, release, t, lead, timeMap, t);
    TwoChannels(s, ceiling, release, t, lead);
  }

  lemma TwoChannels(s: Settings, ceiling: int -> real, release: int -> real, t: int, lead: nat)
    requires Rises(s, ceiling, release, t, lead)
    ensures |OutputAt(s, Early(s, ceiling, release, t - lead, lead, Click(s, ceiling, t)), lead + s.lookahead)| == 2
    ensures |OutputAt(s, BlockFeed(ceiling, release, t, Click(s, ceiling, t)), s.lookahead)| == 2
  {
    hide GainAt, CeilingAt, HoldsDown;
    assert Click(s, ceiling, t)[0] == ClickFrame(s, ceiling, t);
  }

  // ------------------------------------------------------------------ delivered

  lemma LimiterAlwaysRuns(s: Settings, ceiling: int -> real, release: int -> real)
    requires s.Valid()
    ensures AlwaysRuns(LimiterProcessor(s, ceiling, release))
  {
    hide Outputs;
    forall start: int, main: seq<Frame>, aux: seq<AuxFrame> | |aux| == |main|
      ensures RunsOn(LimiterProcessor(s, ceiling, release), start, main, aux)
    {
      LimiterRun(s, ceiling, release, start, main, aux);
    }
  }

  lemma RisingRuns(sch: Schedule<Feed>, s: Settings, ceiling: int -> real, release: int -> real, t: int, lead: nat, timeMap: TimeMap)
    requires s.Valid() && RunsRising(sch, s, ceiling, release, t, lead, timeMap)
    ensures PlanRuns(sch)
  {
    hide AlwaysRuns, LimiterProcessor, Schedule.WellFormed;
    LimiterAlwaysRuns(s.(lookahead := lead), _ => ceiling(t), release);
    LimiterAlwaysRuns(s, ceiling, release);
  }

  method PrepareRising(p: Program<Feed>, ghost s: Settings, ghost ceiling: int -> real, ghost release: int -> real, ghost t: int, ghost lead: nat,
                       ghost timeMap: TimeMap)
    returns (sch: Schedule<Feed>)
    requires Rises(s, ceiling, release, t, lead) && timeMap.Valid() && p == Rising(s, ceiling, release, t, lead, timeMap)
    ensures RunsRising(sch, s, ceiling, release, t, lead, timeMap) && Stands(sch, p) && sch.lookahead <= TotalLatency(p)
  {
    hide Obstacle, Realizes, Transparency.Planned, Transparency.Extended, Transparency.SidechainsTimed, RunsRising, Schedule.WellFormed, ProgramLatencies,
         HoldsDown, TotalLatency, LimiterProcessor;
    RisingIsPrepared(s, ceiling, release, t, lead, timeMap);
    var refused, prepared, plan := PrepareSchedule(p);
    sch := prepared.value;
    PreparedRunsRising(sch, s, ceiling, release, t, lead, timeMap, plan);
  }

  /** One sample at the ceiling, entered where it plays: everything succeeds, and the delivered frame is not the mix
      that the program means. */
  method RisingIsHeard(p: Program<Feed>, ghost s: Settings, ghost ceiling: int -> real, ghost release: int -> real, t: int, ghost lead: nat,
                       ghost timeMap: TimeMap, ghost signal: (nat, int) -> Frame, read: SourceRead, epoch: Epoch)
    returns (failure: Option<RenderError>, pcm: seq<Frame>)
    requires Rises(s, ceiling, release, t, lead) && p == Rising(s, ceiling, release, t, lead, timeMap)
    requires timeMap.Valid() && timeMap.FrameAt(48000, t) >= 0 && t + 1 + TotalLatency(p) <= I64_MAX
    requires forall k: nat, f: int :: signal(k, f) == ClickFrame(s, ceiling, t)
    requires SourceAgrees(read, signal, 2) && Reliable(read)
    ensures failure.None? && |pcm| == 1 && Acyclic(p) && pcm[0] != ProgramOutput(p, signal, t, t)
  {
    hide HoldsDown, RunsRising, Realizes, TotalLatency, PlanRuns, Reliable, Justified, SourceAgrees, PublicAt, MixedPort, Acyclic, LimiterProcessor, Rising,
         Schedule.WellFormed;
    var sch := PrepareRising(p, s, ceiling, release, t, lead, timeMap);
    RisingRuns(sch, s, ceiling, release, t, lead, timeMap);
    RisingSizes(sch, s, ceiling, release, t, lead, timeMap);
    SameChannels(sch, p);
    failure, pcm := EnterAndRender(sch, signal, read, epoch, t, [1]);
    OneSample();
    if failure.Some? {
      OneBlockSucceeds(sch, p, read, t, failure.value);
    }
    RisingDiffers(World(sch, signal, t), p, s, ceiling, release, t, lead, timeMap);
  }

  lemma OneSample()
    ensures Total([1]) == 1
  {
    assert [1][..0] == [];
  }

  /** Nothing excuses a failure of this one block. */
  lemma OneBlockSucceeds(sch: Schedule<Feed>, p: Program<Feed>, read: SourceRead, t: int, error: RenderError)
    requires PlanRuns(sch) && Reliable(read)
    requires sch.maxBlock == p.maxBlock >= 1 && sch.lookahead <= TotalLatency(p) && t + 1 + TotalLatency(p) <= I64_MAX
    ensures !Justified(sch, read, t, [1], 0, error)
  {
    hide PlanRuns, Justified, TotalLatency, Reliable;
    OneSample();
    if Justified(sch, read, t, [1], 0, error) {
      JustifiedIsExcused(sch, p, read, t, [1], error);
    }
  }

  lemma RisingSizes(sch: Schedule<Feed>, s: Settings, ceiling: int -> real, release: int -> real, t: int, lead: nat, timeMap: TimeMap)
    requires s.Valid() && RunsRising(sch, s, ceiling, release, t, lead, timeMap)
    ensures sch.WellFormed() && sch.channels == 2 && sch.requiresStateEntry && sch.maxBlock >= 1
  {}

  lemma RisingDiffers(w: World<Feed>, p: Program<Feed>, s: Settings, ceiling: int -> real, release: int -> real, t: int, lead: nat, timeMap: TimeMap)
    requires PlaysClick(w, s, ceiling, release, t, lead, timeMap) && Stands(w.schedule, p)
    ensures PublicAt(w, t) != ProgramOutput(p, w.signal, t, t)
  {
    hide HoldsDown, PublicAt, MixedPort, Acyclic, Realizes, LimiterProcessor, Transparency.IdealPort;
    PublicDiffers(w, s, ceiling, release, t, lead, timeMap);
    PreparationKeepsMeaning(w, p, t);
  }
}
