/** What the gains of a program do to its samples, in real numbers. */
module GainLaw {
  import opened Frames
  import opened Graph
  import opened Processors
  import opened SourceFrames
  import opened Schedule
  import opened Compensation
  import opened Transparency
  import opened Preparation
  import opened Tails
  import opened ProgramMix
  import opened Noninterference

  // ------------------------------------------------------------------ one constant or curve at a time

  /** The number by which a gain multiplies at signal sample `t`. */
  ghost predicate Amounts(gain: Gain, t: int, value: real) {
    gain == Constant(value) || (gain.Curve? && gain.read(t) == value)
  }

  lemma ScaledSample(frame: Frame, gain: Gain, t: int, value: real, channel: nat)
    requires Amounts(gain, t, value)
    ensures |Scale(frame, gain.At(t))| == |frame| && Sample(Scale(frame, gain.At(t)), channel) == Sample(frame, channel) * value
  {}

  lemma AddedSample(a: Frame, b: Frame, channel: nat)
    requires channel < |a|
    ensures |Add(a, b)| == |a| && Sample(Add(a, b), channel) == Sample(a, channel) + Sample(b, channel)
  {}

  /** A rack without processors is not there. */
  lemma BareRack<S(!new)>(p: Program<S>, signal: (nat, int) -> Frame, entry: int, n: nat, behind: bool, t: int)
    requires Acyclic(p) && n < |p.strips| && p.strips[n].RackAt(behind) == [] && t >= entry
    ensures MixedRackOutput(p, signal, entry, n, behind, t) == MixedRackInput(p, signal, entry, n, behind, t)
  {
    hide MixedRackInput, Acyclic;
    var rack := p.strips[n].RackAt(behind);
    var length := t - entry + 1;
    var main := MixedMain(p, signal, entry, n, behind, length);
    assert PrefixLatency(rack) == 0;
    assert Advanced(Slots(rack, 0), 0, entry, main, MixedAuxes(p, signal, entry, n, behind, length)) == Some(main);
    assert main[t - entry] == MixedRackInput(p, signal, entry, n, behind, t);
  }

  /** The trim of a strip without processors before the fader. */
  lemma TrimMultiplies<S(!new)>(p: Program<S>, signal: (nat, int) -> Frame, entry: int, n: nat, t: int, channel: nat)
    requires Acyclic(p) && n < |p.strips| && p.strips[n].pre == [] && t >= entry
    ensures Sample(MixedPort(p, signal, entry, n, PreFader, t), channel)
            == Sample(MixedInput(p, signal, entry, n, t), channel) * p.strips[n].trim
  {
    hide MixedInput, MixedRackOutput, Acyclic;
    BareRack(p, signal, entry, n, false, t);
  }

  /** The fader of a strip without processors behind it multiplies every sample, read at the sample it belongs to. */
  lemma FaderMultiplies<S(!new)>(p: Program<S>, signal: (nat, int) -> Frame, entry: int, n: nat, t: int, value: real, channel: nat)
    requires Acyclic(p) && n < |p.strips| && p.strips[n].post == [] && Amounts(p.strips[n].fader, t, value) && t >= entry
    ensures Sample(MixedPort(p, signal, entry, n, PostFaderPreMute, t), channel)
            == Sample(MixedPort(p, signal, entry, n, PreFader, t), channel) * value
  {
    hide MixedRackOutput, Acyclic;
    BareRack(p, signal, entry, n, true, t);
    ScaledSample(MixedRackOutput(p, signal, entry, n, false, t), p.strips[n].fader, t, value, channel);
  }

  /** A Route into a strip adds every sample of its tap, multiplied by its gain. */
  lemma RouteMultiplies<S(!new)>(p: Program<S>, signal: (nat, int) -> Frame, entry: int, n: nat, hi: nat, t: int, value: real, channel: nat)
    requires Acyclic(p) && n < |p.strips| && 0 < hi <= |RoutesInto(p.routes, n)| && channel < p.channels
    requires Amounts(RoutesInto(p.routes, n)[hi - 1].gain, t, value)
    ensures RoutesInto(p.routes, n)[hi - 1].source < n
    ensures var route := RoutesInto(p.routes, n)[hi - 1];
            Sample(MixedRoutes(p, signal, entry, n, hi, t), channel)
            == Sample(MixedRoutes(p, signal, entry, n, hi - 1, t), channel)
               + Sample(MixedPort(p, signal, entry, route.source, route.port, t), channel) * value
  {
    hide MixedPort, RoutesInto, Acyclic;
    RoutesLength(p, signal, entry, n, hi - 1, t);
    RoutesSourced(p, n);
    var route := RoutesInto(p.routes, n)[hi - 1];
    var tap := MixedPort(p, signal, entry, route.source, route.port, t);
    ScaledSample(tap, route.gain, t, value, channel);
    AddedSample(MixedRoutes(p, signal, entry, n, hi - 1, t), Scale(tap, route.gain.At(t)), channel);
  }

  lemma {:induction false} RoutesLength<S(!new)>(p: Program<S>, signal: (nat, int) -> Frame, entry: int, n: nat, hi: nat, t: int)
    requires Acyclic(p) && n < |p.strips| && hi <= |RoutesInto(p.routes, n)|
    ensures |MixedRoutes(p, signal, entry, n, hi, t)| == p.channels
    decreases hi
  {
    hide MixedPort, RoutesInto, Acyclic;
    if hi > 0 {
      RoutesLength(p, signal, entry, n, hi - 1, t);
    }
  }

  /** A sidechain Route adds to its auxiliary bus every sample of its tap, multiplied by its gain, and nothing to any other. */
  lemma SidechainMultiplies<S(!new)>(p: Program<S>, signal: (nat, int) -> Frame, entry: int, n: nat, behind: bool, j: nat, hi: nat, bus: nat, t: int, value: real, channel: nat)
    requires Acyclic(p) && n < |p.strips| && j < |p.strips[n].RackAt(behind)| && 0 < hi <= |p.strips[n].RackAt(behind)[j].sidechains| && channel < p.channels
    requires Amounts(p.strips[n].RackAt(behind)[j].sidechains[hi - 1].gain, t, value)
    ensures p.strips[n].RackAt(behind)[j].sidechains[hi - 1].source < n
    ensures var route := p.strips[n].RackAt(behind)[j].sidechains[hi - 1];
            Sample(MixedSidechains(p, signal, entry, n, behind, j, hi, bus, t), channel)
            == Sample(MixedSidechains(p, signal, entry, n, behind, j, hi - 1, bus, t), channel)
               + if route.bus == bus then Sample(MixedPort(p, signal, entry, route.source, route.port, t), channel) * value else 0.0
  {
    hide MixedPort;
    var route := p.strips[n].RackAt(behind)[j].sidechains[hi - 1];
    assert LeadBefore(p.strips[n].RackAt(behind)[j].sidechains, n);
    SidechainsLength(p, signal, entry, n, behind, j, hi - 1, bus, t);
    var tap := MixedPort(p, signal, entry, route.source, route.port, t);
    ScaledSample(tap, route.gain, t, value, channel);
    AddedSample(MixedSidechains(p, signal, entry, n, behind, j, hi - 1, bus, t), Scale(tap, route.gain.At(t)), channel);
  }

  lemma {:induction false} SidechainsLength<S(!new)>(p: Program<S>, signal: (nat, int) -> Frame, entry: int, n: nat, behind: bool, j: nat, hi: nat, bus: nat, t: int)
    requires Acyclic(p) && n < |p.strips| && j < |p.strips[n].RackAt(behind)| && hi <= |p.strips[n].RackAt(behind)[j].sidechains|
    ensures |MixedSidechains(p, signal, entry, n, behind, j, hi, bus, t)| == p.channels
    decreases hi
  {
    hide MixedPort, Acyclic;
    if hi > 0 {
      SidechainsLength(p, signal, entry, n, behind, j, hi - 1, bus, t);
    }
  }

  /** The scope gain of a contribution multiplies every source sample. */
  lemma ScopeMultiplies<S(!new)>(p: Program<S>, signal: (nat, int) -> Frame, k: nat, start: int, length: nat, i: nat, f: nat, value: real, channel: nat)
    requires p.Compiled() && k < |p.contributions| && i < length && p.contributions[k].timeMap.Valid()
    requires p.contributions[k].start <= start + i < p.contributions[k].end && f == p.contributions[k].timeMap.FrameAt(p.rate, start + i)
    requires Amounts(p.contributions[k].scopeGain, start + i, value)
    ensures Sample(MixedScopeInput(p, signal, k, start, length)[i], channel) == Sample(signal(k, f), channel) * value
  {
    hide TimeMap.FrameAt;
    var c := p.contributions[k];
    var demanded := Demand(c.timeMap, p.rate, c.start, c.end, start + i);
    assert demanded == f;
    assert MixedScopeInput(p, signal, k, start, length)[i] == Scale(if demanded < 0 then Silence(p.channels) else signal(k, demanded), c.scopeGain.At(start + i));
    ScaledSample(signal(k, f), p.contributions[k].scopeGain, start + i, value, channel);
  }

  /** The same program with other edit gains of one contribution. */
  function Edited<S(!new)>(p: Program<S>, k: nat, edit: EditGain): Program<S>
    requires k < |p.contributions|
  {
    p.(contributions := p.contributions[k := p.contributions[k].(editGain := edit)])
  }

  lemma EditedCompiled<S(!new)>(p: Program<S>, k: nat, edit: EditGain)
    requires p.Compiled() && k < |p.contributions|
    ensures Edited(p, k, edit).Compiled()
  {
    hide Streaming;
    var q := Edited(p, k, edit);
    forall j | 0 <= j < |q.contributions|
      ensures q.ContributionCompiled(q.contributions[j])
    {
      assert p.ContributionCompiled(p.contributions[j]);
    }
  }

  /** The edit gains of a contribution, one for each channel, multiply what it is with gains of one, whatever processors
      its scope has. */
  lemma EditMultiplies<S(!new)>(p: Program<S>, signal: (nat, int) -> Frame, entry: int, k: nat, t: int, gains: Frame, channel: nat)
    requires p.Compiled() && k < |p.contributions| && |gains| == p.channels && channel < p.channels
    requires p.contributions[k].editGain == ConstantShape(gains) || (p.contributions[k].editGain.ShapeCurve? && p.contributions[k].editGain.read(t) == gains)
    ensures Edited(p, k, ConstantShape(seq(p.channels, _ => 1.0))).Compiled()
    ensures Sample(MixedContribution(p, signal, entry, k, t), channel)
            == Sample(MixedContribution(Edited(p, k, ConstantShape(seq(p.channels, _ => 1.0))), signal, entry, k, t), channel) * gains[channel]
  {
    hide Advanced, Slots, PrefixLatency, TailsKept, Lasts, SilentSidechains, MixedScopeInput, Program.Compiled;
    var ones := ConstantShape(seq(p.channels, _ => 1.0));
    var q := Edited(p, k, ones);
    EditedCompiled(p, k, ones);
    var c, start := p.contributions[k], Max(entry, p.contributions[k].start);
    var length := t - start + 1 + PrefixLatency(c.processors);
    if t >= start {
      EditedAlike(p, signal, k, t, start, length, ones);
      var out := Advanced(Slots(c.processors, 0), |c.processors|, start, MixedScopeInput(p, signal, k, start, length), SilentSidechains(c.processors, p.channels, length));
      if out.Some? {
        ShapedAlike(Last(out.value, p.channels), gains, p.channels, channel);
      }
    }
  }

  lemma EditedAlike<S(!new)>(p: Program<S>, signal: (nat, int) -> Frame, k: nat, t: int, start: int, length: nat, edit: EditGain)
    requires p.Compiled() && k < |p.contributions|
    ensures var q := Edited(p, k, edit);
            && q.Compiled() && MixedScopeInput(p, signal, k, start, length) == MixedScopeInput(q, signal, k, start, length)
            && TailsKept(q.contributions[k], q.channels) == TailsKept(p.contributions[k], p.channels)
            && Lasts(q.contributions[k], t) == Lasts(p.contributions[k], t)
  {
    hide RackKeepsTails, Endless, AllFrames, TimeMap.FrameAt;
    EditedCompiled(p, k, edit);
    var q := Edited(p, k, edit);
    var one, other := MixedScopeInput(p, signal, k, start, length), MixedScopeInput(q, signal, k, start, length);
    assert p.ContributionCompiled(p.contributions[k]);
    forall i | 0 <= i < length
      ensures one[i] == other[i]
    {}
  }

  lemma ShapedAlike(frame: Frame, gains: Frame, channels: nat, channel: nat)
    requires |gains| == channels && channel < channels
    ensures Sample(Shape(frame, gains), channel) == Sample(Shape(frame, seq(channels, _ => 1.0)), channel) * gains[channel]
  {}

  // ------------------------------------------------------------------ how a gain is written down

  /** A constant written down as automation. */
  function Automated(gain: Gain): Gain {
    match gain
    case Constant(value) => Curve(_ => value)
    case Curve(read) => Curve(read)
  }

  function AutomatedEdit(edit: EditGain): EditGain {
    match edit
    case ConstantShape(gains) => ShapeCurve(_ => gains)
    case ShapeCurve(read) => ShapeCurve(read)
  }

  function AutomatedRoutes(routes: seq<PlannedRoute>): (automated: seq<PlannedRoute>)
    ensures |automated| == |routes|
  {
    seq(|routes|, r requires 0 <= r < |routes| => routes[r].(gain := Automated(routes[r].gain)))
  }

  function AutomatedSidechains(routes: seq<SidechainRoute>): (automated: seq<SidechainRoute>)
    ensures |automated| == |routes|
  {
    seq(|routes|, r requires 0 <= r < |routes| => routes[r].(gain := Automated(routes[r].gain)))
  }

  function AutomatedRack<S>(rack: seq<PlannedProcessor<S>>): (automated: seq<PlannedProcessor<S>>)
    ensures |automated| == |rack|
  {
    seq(|rack|, j requires 0 <= j < |rack| => rack[j].(sidechains := AutomatedSidechains(rack[j].sidechains)))
  }

  function AutomatedStrip<S>(strip: Strip<S>): Strip<S> {
    strip.(fader := Automated(strip.fader), pre := AutomatedRack(strip.pre), post := AutomatedRack(strip.post))
  }

  function AutomatedContribution<S>(c: PlannedContribution<S>): PlannedContribution<S> {
    c.(scopeGain := Automated(c.scopeGain), editGain := AutomatedEdit(c.editGain))
  }

  /** The program in which every gain is automation: faders, Routes, sidechain Routes, scopes and edits. */
  function AllAutomated<S(!new)>(p: Program<S>): Program<S> {
    p.(strips := seq(|p.strips|, n requires 0 <= n < |p.strips| => AutomatedStrip(p.strips[n])),
       contributions := seq(|p.contributions|, k requires 0 <= k < |p.contributions| => AutomatedContribution(p.contributions[k])),
       routes := AutomatedRoutes(p.routes))
  }

  lemma AutomatedIsAcyclic<S(!new)>(p: Program<S>)
    requires Acyclic(p)
    ensures |p.strips| > 0 && Acyclic(AllAutomated(p))
  {
    hide Streaming;
    var q := AllAutomated(p);
    assert q.Compiled() by {
      forall n | 0 <= n < |q.strips|
        ensures q.RackStreams(q.strips[n].pre) && q.RackStreams(q.strips[n].post)
      {
        assert p.RackStreams(p.strips[n].pre) && p.RackStreams(p.strips[n].post);
      }
      forall k | 0 <= k < |q.contributions|
        ensures q.ContributionCompiled(q.contributions[k])
      {
        assert p.ContributionCompiled(p.contributions[k]);
      }
    }
    forall n, behind, j | 0 <= n < |q.strips| && 0 <= j < |q.strips[n].RackAt(behind)|
      ensures LeadBefore(q.strips[n].RackAt(behind)[j].sidechains, n)
    {
      assert LeadBefore(p.strips[n].RackAt(behind)[j].sidechains, n);
    }
  }

  lemma {:induction false} IntoAutomated(routes: seq<PlannedRoute>, n: nat)
    ensures RoutesInto(AutomatedRoutes(routes), n) == AutomatedRoutes(RoutesInto(routes, n))
    decreases |routes|
  {
    if |routes| > 0 {
      IntoAutomated(routes[..|routes| - 1], n);
      assert AutomatedRoutes(routes)[..|routes| - 1] == AutomatedRoutes(routes[..|routes| - 1]);
    }
  }

  lemma {:induction false} SameRouteFeeds<S(!new)>(p: Program<S>, routes: seq<PlannedRoute>)
    ensures SameFeeds(RouteFeeds(p, routes), RouteFeeds(AllAutomated(p), AutomatedRoutes(routes)))
    decreases |routes|
  {
    hide Automated;
    if |routes| > 0 {
      SameRouteFeeds(p, routes[..|routes| - 1]);
      assert AutomatedRoutes(routes)[..|routes| - 1] == AutomatedRoutes(routes[..|routes| - 1]);
      WrittenAs(routes[|routes| - 1].gain);
    }
  }

  lemma {:induction false} SameSidechainFeeds<S(!new)>(p: Program<S>, sidechains: seq<SidechainRoute>, bus: nat)
    ensures SameFeeds(SidechainFeeds(p, sidechains, bus), SidechainFeeds(AllAutomated(p), AutomatedSidechains(sidechains), bus))
    decreases |sidechains|
  {
    hide Automated;
    if |sidechains| > 0 {
      SameSidechainFeeds(p, sidechains[..|sidechains| - 1], bus);
      assert AutomatedSidechains(sidechains)[..|sidechains| - 1] == AutomatedSidechains(sidechains[..|sidechains| - 1]);
      WrittenAs(sidechains[|sidechains| - 1].gain);
    }
  }

  lemma WrittenAs(gain: Gain)
    ensures SameGain(gain, Automated(gain))
  {}

  lemma SameAutomatedRack<S(!new)>(p: Program<S>, rack: seq<PlannedProcessor<S>>)
    ensures SameRack(p, AllAutomated(p), rack, AutomatedRack(rack))
  {
    hide SidechainFeeds;
    forall j, bus: nat | 0 <= j < |rack|
      ensures SameFeeds(SidechainFeeds(p, rack[j].sidechains, bus), SidechainFeeds(AllAutomated(p), AutomatedRack(rack)[j].sidechains, bus))
    {
      SameSidechainFeeds(p, rack[j].sidechains, bus);
    }
  }

  /** Everything is reached. */
  ghost function Everything<S(!new)>(p: Program<S>): Reach {
    Reach(UpTo(|p.strips|), UpTo(|p.strips|))
  }

  lemma EverythingSupports<S(!new)>(p: Program<S>)
    requires Acyclic(p)
    ensures Supports(p, Everything(p))
  {
    hide RoutesInto, RouteFeeds, SidechainFeeds, Program.Compiled;
    var reach := Everything(p);
    forall n | 0 <= n < |p.strips|
      ensures AllReached(reach, RouteFeeds(p, RoutesInto(p.routes, n)))
    {
      RoutesSourced(p, n);
      FeedsBefore(p, RoutesInto(p.routes, n), n);
    }
    forall n, behind, j, bus | 0 <= n < |p.strips| && 0 <= j < |p.strips[n].RackAt(behind)|
      ensures AllReached(reach, SidechainFeeds(p, p.strips[n].RackAt(behind)[j].sidechains, bus))
    {
      assert LeadBefore(p.strips[n].RackAt(behind)[j].sidechains, n);
      SidechainFeedsBefore(p, p.strips[n].RackAt(behind)[j].sidechains, bus, n);
    }
    forall n | 0 <= n < |p.strips|
      ensures RackReached(p, reach, p.strips[n].pre) && RackReached(p, reach, p.strips[n].post)
    {
      assert p.strips[n].pre == p.strips[n].RackAt(false) && p.strips[n].post == p.strips[n].RackAt(true);
    }
  }

  /** It does not matter whether a constant gain is prepared as a constant or as automation that never changes. */
  lemma ConstantsAreCurves<S(!new)>(p: Program<S>, signal: (nat, int) -> Frame, entry: int, t: int)
    requires Acyclic(p)
    ensures Acyclic(AllAutomated(p)) && ProgramOutput(AllAutomated(p), signal, entry, t) == ProgramOutput(p, signal, entry, t)
  {
    hide MixedPort, RoutesInto, RouteFeeds, AutomatedRack, AutomatedRoutes, SameRack, Supports, SidechainsLeadForward, LeadsForward, Program.Compiled;
    var q := AllAutomated(p);
    AutomatedIsAcyclic(p);
    EverythingSupports(p);
    forall n | 0 <= n < |p.strips|
      ensures SameStrip(p, q, signal, signal, Everything(p), n)
    {
      SameAutomatedRack(p, p.strips[n].pre);
      SameAutomatedRack(p, p.strips[n].post);
      WrittenAs(p.strips[n].fader);
      IntoAutomated(p.routes, n);
      SameRouteFeeds(p, RoutesInto(p.routes, n));
    }
    AgreeingSoundTheSame(p, q, signal, signal, Everything(p), entry, t);
  }

  // ------------------------------------------------------------------ the fader of the output

  /** The same program with another fader at its output. */
  function Faded<S(!new)>(p: Program<S>, fader: Gain): Program<S>
    requires |p.strips| > 0
  {
    p.(strips := p.strips[|p.strips| - 1 := p.strips[|p.strips| - 1].(fader := fader)])
  }

  lemma FadedIsAcyclic<S(!new)>(p: Program<S>, fader: Gain)
    requires Acyclic(p)
    ensures |p.strips| > 0 && Acyclic(Faded(p, fader))
  {
    hide Streaming;
    var q := Faded(p, fader);
    forall n | 0 <= n < |q.strips|
      ensures q.RackStreams(q.strips[n].pre) && q.RackStreams(q.strips[n].post)
    {
      assert p.RackStreams(p.strips[n].pre) && p.RackStreams(p.strips[n].post);
    }
    forall k | 0 <= k < |q.contributions|
      ensures q.ContributionCompiled(q.contributions[k])
    {
      assert p.ContributionCompiled(p.contributions[k]);
    }
    forall n, behind, j | 0 <= n < |q.strips| && 0 <= j < |q.strips[n].RackAt(behind)|
      ensures LeadBefore(q.strips[n].RackAt(behind)[j].sidechains, n)
    {
      assert LeadBefore(p.strips[n].RackAt(behind)[j].sidechains, n);
    }
  }

  /** The output is heard in front of its fader only, everything else behind it as well. */
  ghost function InFrontOfOutput<S(!new)>(p: Program<S>): Reach
    requires |p.strips| > 0
  {
    Reach(UpTo(|p.strips|), UpTo(|p.strips| - 1))
  }

  lemma FrontSupports<S(!new)>(p: Program<S>)
    requires Acyclic(p)
    ensures |p.strips| > 0 && Supports(p, InFrontOfOutput(p))
  {
    hide RoutesInto, RouteFeeds, SidechainFeeds, Streaming;
    var reach := InFrontOfOutput(p);
    forall n | 0 <= n < |p.strips|
      ensures AllReached(reach, RouteFeeds(p, RoutesInto(p.routes, n)))
    {
      RoutesSourced(p, n);
      FeedsBefore(p, RoutesInto(p.routes, n), n);
    }
    forall n, behind, j, bus | 0 <= n < |p.strips| && 0 <= j < |p.strips[n].RackAt(behind)|
      ensures AllReached(reach, SidechainFeeds(p, p.strips[n].RackAt(behind)[j].sidechains, bus))
    {
      assert LeadBefore(p.strips[n].RackAt(behind)[j].sidechains, n);
      SidechainFeedsBefore(p, p.strips[n].RackAt(behind)[j].sidechains, bus, n);
    }
    forall n | 0 <= n < |p.strips|
      ensures RackReached(p, reach, p.strips[n].pre) && RackReached(p, reach, p.strips[n].post)
    {
      assert p.strips[n].pre == p.strips[n].RackAt(false) && p.strips[n].post == p.strips[n].RackAt(true);
    }
  }

  /** The fader of the output is heard behind everything else: in front of it nothing depends on it. */
  lemma FrontIsSame<S(!new)>(p: Program<S>, signal: (nat, int) -> Frame, entry: int, fader: Gain, t: int)
    requires Acyclic(p)
    ensures |p.strips| > 0 && Acyclic(Faded(p, fader))
    ensures MixedPort(Faded(p, fader), signal, entry, |p.strips| - 1, PreFader, t) == MixedPort(p, signal, entry, |p.strips| - 1, PreFader, t)
  {
    hide MixedPort, RoutesInto, RouteFeeds, SameRack, Supports, SidechainsLeadForward, LeadsForward, Program.Compiled;
    FadedIsAcyclic(p, fader);
    FrontSupports(p);
    var q, reach := Faded(p, fader), InFrontOfOutput(p);
    forall n | 0 <= n < |p.strips|
      ensures SameStrip(p, q, signal, signal, reach, n)
    {
      RackItself(p, q, p.strips[n].pre);
      RackItself(p, q, p.strips[n].post);
      SameMutesSameRoutes(p, q, RoutesInto(p.routes, n));
    }
    AgreePort(p, q, signal, signal, reach, entry, |p.strips| - 1, PreFader, t);
  }

  /** An output without processors behind its fader: the fader gives what a fader of one gives, sample by sample times
      its gain, whatever the program before it is. */
  lemma OutputFaderMultiplies<S(!new)>(p: Program<S>, signal: (nat, int) -> Frame, entry: int, t: int, value: real, channel: nat)
    requires Acyclic(p) && p.strips[|p.strips| - 1].post == [] && t >= entry
    requires p.strips[|p.strips| - 1].fader == Constant(value)
             || (p.strips[|p.strips| - 1].fader.Curve? && p.strips[|p.strips| - 1].fader.read(t) == value)
    ensures Acyclic(Faded(p, Constant(1.0)))
    ensures Sample(ProgramOutput(p, signal, entry, t), channel) == Sample(ProgramOutput(Faded(p, Constant(1.0)), signal, entry, t), channel) * value
  {
    hide MixedRackOutput, SidechainsLeadForward, LeadsForward, Program.Compiled;
    FrontIsSame(p, signal, entry, Constant(1.0), t);
    var q, last := Faded(p, Constant(1.0)), |p.strips| - 1;
    FaderMultiplies(p, signal, entry, last, t, value, channel);
    FaderMultiplies(q, signal, entry, last, t, 1.0, channel);
  }
}
