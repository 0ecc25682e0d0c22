/** One small desk with arbitrary gains everywhere: what a caller gets delivered, as a product of the numbers written on it. */
module MixingDesk {
  import opened Frames
  import opened Graph
  import opened Processors
  import opened SourceFrames
  import opened Schedule
  import opened Compensation
  import opened Preparation
  import opened Tails
  import opened ProgramMix
  import opened Host
  import opened Alignment
  import opened Render
  import opened Session
  import opened Playback
  import opened Delivery
  import opened GainLaw

  /** Everything that is written on the desk. */
  datatype Settings = Settings(
    scope: int -> real, left: real, right: real,
    trackTrim: real, trackFader: real, sendPre: real, sendPost: int -> real, direct: real,
    busTrim: real, busFader: int -> real, busOut: real,
    outputTrim: real, outputFader: real)

  /** A muted track sends to a bus from before its fader and from between its fader and its mute, and goes to the output
      from behind its mute; the bus goes to the output. */
  function Desk<S(!new)>(x: Settings, timeMap: TimeMap, end: int): Program<S> {
    Program(
      [Strip(Track(0), true, x.trackTrim, Constant(x.trackFader), [], []),
       Strip(Bus(0), false, x.busTrim, Curve(x.busFader), [], []),
       Strip(Output(0), false, x.outputTrim, Constant(x.outputFader), [], [])],
      [PlannedContribution(0, 0, end, timeMap, Curve(x.scope), ConstantShape([x.left, x.right]), false, [], [])],
      [PlannedRoute(0, 1, PreFader, Constant(x.sendPre)), PlannedRoute(0, 1, PostFaderPreMute, Curve(x.sendPost)),
       PlannedRoute(0, 2, PostMute, Constant(x.direct)), PlannedRoute(1, 2, PostMute, Constant(x.busOut))],
      2, 48000, 512)
  }

  /** What the desk makes of one sample of the source at time `t`. */
  function Heard(x: Settings, sample: real, edit: real, t: int): real {
    var clip := sample * x.scope(t) * edit;
    var pre := clip * x.trackTrim;
    var post := pre * x.trackFader;
    var bus := (pre * x.sendPre + post * x.sendPost(t)) * x.busTrim * x.busFader(t);
    bus * x.busOut * x.outputTrim * x.outputFader
  }

  lemma DeskIsPrepared<S(!new)>(x: Settings, timeMap: TimeMap, end: int)
    requires timeMap.Valid()
    ensures var p := Desk<S>(x, timeMap, end);
            && p.Compiled() && Acyclic(p) && ProgramCompensable(p) && Obstacle(p) == None
  {
    hide StripLatency, StripTimely, Program.Compiled, SidechainsLeadForward, ProgramCompensable;
    var p := Desk<S>(x, timeMap, end);
    DeskIsPunctual<S>(x, timeMap, end);
    DeskIsCompiled<S>(x, timeMap, end);
  }

  lemma DeskIsCompiled<S(!new)>(x: Settings, timeMap: TimeMap, end: int)
    requires timeMap.Valid()
    ensures var p := Desk<S>(x, timeMap, end);
            && p.Compiled() && SidechainsLeadForward(p) && ProgramCompensable(p)
            && forall n, latencies :: 0 <= n < |p.strips| && |latencies| == |p.strips| ==> StripTimely(p.strips[n], n, latencies)
  {
    hide Program.Compiled, SidechainsLeadForward, ProgramCompensable, StripTimely;
    var p := Desk<S>(x, timeMap, end);
    assert p.strips == [p.strips[0], p.strips[1], p.strips[2]];
    assert p.Compiled() by { DeskConnects<S>(x, timeMap, end); }
    RacklessIsSimple(p);
  }

  lemma DeskConnects<S(!new)>(x: Settings, timeMap: TimeMap, end: int)
    requires timeMap.Valid()
    ensures Desk<S>(x, timeMap, end).Compiled()
  {}

  /** Without processors there is nothing to compensate and nothing to wait for. */
  lemma RacklessIsSimple<S(!new)>(p: Program<S>)
    requires forall n :: 0 <= n < |p.strips| ==> p.strips[n].pre == [] && p.strips[n].post == []
    requires forall k :: 0 <= k < |p.contributions| ==> p.contributions[k].processors == []
    ensures SidechainsLeadForward(p) && ProgramCompensable(p)
    ensures forall n, latencies :: 0 <= n < |p.strips| && |latencies| == |p.strips| ==> StripTimely(p.strips[n], n, latencies)
  {}

  /** Nothing on the desk is late. */
  lemma DeskIsPunctual<S(!new)>(x: Settings, timeMap: TimeMap, end: int)
    ensures var p := Desk<S>(x, timeMap, end);
            LeadsForward(p) && StripLatency(p, 0) == StripLatency(p, 1) == StripLatency(p, 2) == NodeLatency(0, 0, 0)
  {
    var p := Desk<S>(x, timeMap, end);
    assert LatestContribution(p, 0, 0) == 0;
    assert StripLatency(p, 0) == NodeLatency(0, 0, 0);
    assert LatestRoute(p, 1, 0) == 0 && LatestRoute(p, 1, 1) == 0 && LatestRoute(p, 1, 2) == 0 && LatestRoute(p, 1, 3) == 0;
    assert StripLatency(p, 1) == NodeLatency(0, 0, 0);
    assert LatestRoute(p, 2, 0) == 0 && LatestRoute(p, 2, 1) == 0 && LatestRoute(p, 2, 2) == 0 && LatestRoute(p, 2, 3) == 0;
    assert StripLatency(p, 2) == NodeLatency(0, 0, 0);
  }

  lemma DeskRoutes<S(!new)>(x: Settings, timeMap: TimeMap, end: int)
    ensures var p := Desk<S>(x, timeMap, end);
            RoutesInto(p.routes, 1) == [p.routes[0], p.routes[1]] && RoutesInto(p.routes, 2) == [p.routes[2], p.routes[3]]
  {
    var routes := Desk<S>(x, timeMap, end).routes;
    assert routes == [routes[0], routes[1], routes[2], routes[3]];
    assert routes[..3] == [routes[0], routes[1], routes[2]] && routes[..3][..2] == [routes[0], routes[1]] && routes[..3][..2][..1] == [routes[0]];
    assert routes[..3][..2][..1][..0] == [];
    forall n: nat | n == 1 || n == 2
      ensures RoutesInto(routes, n) == (if n == 1 then [routes[0], routes[1]] else [routes[2], routes[3]])
    {
      assert RoutesInto(routes[..3][..2][..1], n) == if n == 1 then [routes[0]] else [];
      assert RoutesInto(routes[..3][..2], n) == if n == 1 then [routes[0], routes[1]] else [];
      assert RoutesInto(routes[..3], n) == if n == 1 then [routes[0], routes[1]] else [routes[2]];
    }
  }

  lemma TrackSounds<S(!new)>(x: Settings, timeMap: TimeMap, end: int, signal: (nat, int) -> Frame, entry: int, t: int, f: nat, channel: nat)
    requires timeMap.Valid() && entry <= t && 0 <= t < end && f == timeMap.FrameAt(48000, t) && channel < 2
    ensures var p := Desk<S>(x, timeMap, end);
            var pre := Sample(signal(0, f), channel) * x.scope(t) * (if channel == 0 then x.left else x.right) * x.trackTrim;
            && Acyclic(p)
            && Sample(MixedPort(p, signal, entry, 0, PreFader, t), channel) == pre
            && Sample(MixedPort(p, signal, entry, 0, PostFaderPreMute, t), channel) == pre * x.trackFader
            && MixedPort(p, signal, entry, 0, PostMute, t) == Silence(2)
  {
    hide TimeMap.FrameAt, ProgramCompensable, Obstacle, MixedPort;
    var p := Desk<S>(x, timeMap, end);
    DeskIsPrepared<S>(x, timeMap, end);
    ClipSounds<S>(x, timeMap, end, signal, entry, t, f, channel);
    TrimMultiplies(p, signal, entry, 0, t, channel);
    FaderMultiplies(p, signal, entry, 0, t, x.trackFader, channel);
    MutedTrack<S>(x, timeMap, end, signal, entry, t);
  }

  lemma MutedTrack<S(!new)>(x: Settings, timeMap: TimeMap, end: int, signal: (nat, int) -> Frame, entry: int, t: int)
    requires Acyclic(Desk<S>(x, timeMap, end))
    ensures MixedPort(Desk<S>(x, timeMap, end), signal, entry, 0, PostMute, t) == Silence(2)
  {
    hide MixedRackOutput, Acyclic;
  }

  lemma ClipSounds<S(!new)>(x: Settings, timeMap: TimeMap, end: int, signal: (nat, int) -> Frame, entry: int, t: int, f: nat, channel: nat)
    requires timeMap.Valid() && entry <= t && 0 <= t < end && f == timeMap.FrameAt(48000, t) && channel < 2
    requires Acyclic(Desk<S>(x, timeMap, end))
    ensures Sample(MixedInput(Desk<S>(x, timeMap, end), signal, entry, 0, t), channel)
            == Sample(signal(0, f), channel) * x.scope(t) * (if channel == 0 then x.left else x.right)
  {
    hide TimeMap.FrameAt, MixedScopeInput, TailsKept, Lasts, SidechainsLeadForward, LeadsForward;
    var p := Desk<S>(x, timeMap, end);
    var c, start := p.contributions[0], Max(entry, 0);
    var length := t - start + 1;
    assert PrefixLatency(c.processors) == 0;
    ScopeMultiplies(p, signal, 0, start, length, t - start, f, x.scope(t), channel);
    var main := MixedScopeInput(p, signal, 0, start, length);
    assert Advanced(Slots(c.processors, 0), 0, start, main, SilentSidechains(c.processors, p.channels, length)) == Some(main);
    assert Lasts(c, t) by { ClipLasts(c, t); }
    assert MixedContribution(p, signal, entry, 0, t) == Shape(main[t - start], [x.left, x.right]);
    ShapedSample(main[t - start], [x.left, x.right], channel);
    assert MixedContributions(p, signal, entry, 0, 0, t) == Silence(2);
    assert MixedInput(p, signal, entry, 0, t) == Add(Silence(2), MixedContribution(p, signal, entry, 0, t));
  }

  lemma ShapedSample(frame: Frame, gains: Frame, channel: nat)
    ensures Sample(Shape(frame, gains), channel) == Sample(frame, channel) * Sample(gains, channel)
  {}

  lemma ClipLasts<S>(c: PlannedContribution<S>, t: int)
    requires t < c.end
    ensures Lasts(c, t)
  {}

  lemma BusSounds<S(!new)>(x: Settings, timeMap: TimeMap, end: int, signal: (nat, int) -> Frame, entry: int, t: int, f: nat, channel: nat)
    requires timeMap.Valid() && entry <= t && 0 <= t < end && f == timeMap.FrameAt(48000, t) && channel < 2
    ensures var p := Desk<S>(x, timeMap, end);
            var pre := Sample(signal(0, f), channel) * x.scope(t) * (if channel == 0 then x.left else x.right) * x.trackTrim;
            && Acyclic(p)
            && Sample(MixedPort(p, signal, entry, 1, PostMute, t), channel)
               == (pre * x.sendPre + pre * x.trackFader * x.sendPost(t)) * x.busTrim * x.busFader(t)
  {
    hide TimeMap.FrameAt, ProgramCompensable, Obstacle, MixedPort, MixedRoutes, RoutesInto;
    var p := Desk<S>(x, timeMap, end);
    DeskIsPrepared<S>(x, timeMap, end);
    DeskRoutes<S>(x, timeMap, end);
    TrackSounds<S>(x, timeMap, end, signal, entry, t, f, channel);
    assert Sample(MixedRoutes(p, signal, entry, 1, 0, t), channel) == 0.0 by { NoRoutes(p, signal, entry, 1, t); }
    RouteMultiplies(p, signal, entry, 1, 1, t, x.sendPre, channel);
    RouteMultiplies(p, signal, entry, 1, 2, t, x.sendPost(t), channel);
    assert MixedInput(p, signal, entry, 1, t) == MixedRoutes(p, signal, entry, 1, 2, t);
    TrimMultiplies(p, signal, entry, 1, t, channel);
    FaderMultiplies(p, signal, entry, 1, t, x.busFader(t), channel);
    NotMuted(p, signal, entry, 1, t);
  }

  lemma NoRoutes<S(!new)>(p: Program<S>, signal: (nat, int) -> Frame, entry: int, n: nat, t: int)
    requires Acyclic(p) && n < |p.strips|
    ensures MixedRoutes(p, signal, entry, n, 0, t) == Silence(p.channels)
  {
    hide Acyclic;
  }

  lemma NotMuted<S(!new)>(p: Program<S>, signal: (nat, int) -> Frame, entry: int, n: nat, t: int)
    requires Acyclic(p) && n < |p.strips| && !p.strips[n].muted
    ensures MixedPort(p, signal, entry, n, PostMute, t) == MixedPort(p, signal, entry, n, PostFaderPreMute, t)
  {
    hide MixedRackOutput, Acyclic;
  }

  /** Every gain on the desk is a factor, and what is tapped behind the mute of the track is not heard. */
  lemma DeskSounds<S(!new)>(x: Settings, timeMap: TimeMap, end: int, signal: (nat, int) -> Frame, entry: int, t: int, f: nat, channel: nat)
    requires timeMap.Valid() && entry <= t && 0 <= t < end && f == timeMap.FrameAt(48000, t) && channel < 2
    ensures Acyclic(Desk<S>(x, timeMap, end))
    ensures Sample(ProgramOutput(Desk<S>(x, timeMap, end), signal, entry, t), channel)
            == Heard(x, Sample(signal(0, f), channel), if channel == 0 then x.left else x.right, t)
  {
    hide TimeMap.FrameAt, ProgramCompensable, Obstacle, MixedPort, MixedRoutes, RoutesInto;
    var p := Desk<S>(x, timeMap, end);
    DeskIsPrepared<S>(x, timeMap, end);
    DeskRoutes<S>(x, timeMap, end);
    TrackSounds<S>(x, timeMap, end, signal, entry, t, f, channel);
    BusSounds<S>(x, timeMap, end, signal, entry, t, f, channel);
    assert Sample(MixedRoutes(p, signal, entry, 2, 0, t), channel) == 0.0 by { NoRoutes(p, signal, entry, 2, t); }
    RouteMultiplies(p, signal, entry, 2, 1, t, x.direct, channel);
    RouteMultiplies(p, signal, entry, 2, 2, t, x.busOut, channel);
    assert MixedInput(p, signal, entry, 2, t) == MixedRoutes(p, signal, entry, 2, 2, t);
    TrimMultiplies(p, signal, entry, 2, t, channel);
    FaderMultiplies(p, signal, entry, 2, t, x.outputFader, channel);
    NotMuted(p, signal, entry, 2, t);
  }

  /** Deliver the desk. It is never refused, and every sample in front of the end of the clip is that product. */
  method DeliverDesk<S(!new)>(x: Settings, timeMap: TimeMap, end: int, ghost signal: (nat, int) -> Frame, read: SourceRead,
                              epoch: Epoch, start: nat, sizes: seq<nat>)
    returns (failure: Option<Failure>, delivered: Option<seq<Frame>>)
    requires timeMap.Valid() && SourceAgrees(read, signal, 2)
    ensures failure.None? == delivered.Some?
    ensures failure.Some? ==> failure.value.Unrendered?
    ensures delivered.Some? ==> |delivered.value| == Total(sizes)
    ensures delivered.Some? ==> forall i :: 0 <= i < Total(sizes) && start + i < end && timeMap.FrameAt(48000, start + i) >= 0 ==>
              var source := signal(0, timeMap.FrameAt(48000, start + i));
              && Sample(delivered.value[i], 0) == Heard(x, Sample(source, 0), x.left, start + i)
              && Sample(delivered.value[i], 1) == Heard(x, Sample(source, 1), x.right, start + i)
  {
    hide TimeMap.FrameAt, ProgramCompensable, Obstacle, MixedPort, SourceAgrees, Heard, Acyclic, Program.Compiled;
    DeskIsPrepared<S>(x, timeMap, end);
    failure, delivered := Deliver(Desk<S>(x, timeMap, end), signal, read, epoch, start, sizes);
    if delivered.Some? {
      forall i | 0 <= i < Total(sizes) && start + i < end && timeMap.FrameAt(48000, start + i) >= 0
        ensures var source := signal(0, timeMap.FrameAt(48000, start + i));
                && Sample(delivered.value[i], 0) == Heard(x, Sample(source, 0), x.left, start + i)
                && Sample(delivered.value[i], 1) == Heard(x, Sample(source, 1), x.right, start + i)
      {
        var f := timeMap.FrameAt(48000, start + i);
        DeskSounds<S>(x, timeMap, end, signal, start, start + i, f, 0);
        DeskSounds<S>(x, timeMap, end, signal, start, start + i, f, 1);
      }
    }
  }
}
