/** The dense prepared schedule, and what every port of it carries at every
    execution sample of one continuity epoch. */
module Schedule {
  import opened Frames
  import opened Graph
  import opened Processors
  import opened SourceFrames

  /** One sidechain route into an auxiliary bus of one processor. */
  datatype Binding = Binding(sourceBuffer: nat, gain: Gain, compensation: nat, bus: nat)

  /** Processors in order; processor `j` has the sidechain bindings `bindings[j]` into `buses[j]` auxiliary buses. */
  datatype Rack<!S> = Rack(slots: seq<Slot<S>>, bindings: seq<seq<Binding>>, buses: seq<nat>)

  /** Clip volume, pan, fades and transitions as one gain for each channel. */
  datatype EditGain = ConstantShape(gains: Frame) | ShapeCurve(read: int -> Frame) {
    function At(sample: int): Frame {
      match this
      case ConstantShape(gains) => gains
      case ShapeCurve(read) => read(sample)
    }
  }

  datatype Contribution<!S> = Contribution(
    track: nat, start: int, end: int, executionEnd: Option<int>,
    timeMap: TimeMap, sourceLatency: nat,
    scopeGain: Gain, rack: Rack<S>, rackLatency: nat,
    editGain: EditGain, compensation: nat)

  datatype Node<!S> = Node(
    origin: Origin, muted: bool, trim: real, fader: Gain,
    preRack: Rack<S>, postRack: Rack<S>,
    incomingStart: nat, incomingEnd: nat,
    contributionStart: nat, contributionEnd: nat,
    latency: NodeLatency, scratchSlot: nat, sidechainBuffers: seq<nat>)
  {
    function RackAt(post: bool): Rack<S> { if post then postRack else preRack }
  }

  datatype SidechainSource = SidechainSource(node: nat, port: Port)

  datatype Schedule<!S(!new)> = Schedule(
    nodes: seq<Node<S>>, routes: seq<Route>, contributions: seq<Contribution<S>>,
    sidechainSources: seq<SidechainSource>, output: nat,
    channels: nat, rate: int, maxBlock: nat,
    slotCount: nat, requiresStateEntry: bool, lookahead: nat)
  {
    ghost predicate RouteInPlace(r: nat)
      requires r < |routes|
    {
      var route := routes[r];
      && route.destination < |nodes| && route.source < route.destination
      && !nodes[route.destination].origin.Track?
      && nodes[route.destination].incomingStart <= r < nodes[route.destination].incomingEnd
    }

    ghost predicate ContributionInPlace(k: nat)
      requires k < |contributions|
    {
      var c := contributions[k];
      && c.track < |nodes| && nodes[c.track].origin.Track?
      && nodes[c.track].contributionStart <= k < nodes[c.track].contributionEnd
      && c.timeMap.Valid()
      && (c.executionEnd.Some? ==> c.end <= c.executionEnd.value)
      && |c.rack.bindings| == |c.rack.buses| == |c.rack.slots|
      && (forall j :: 0 <= j < |c.rack.bindings| ==> c.rack.bindings[j] == [])
      && StreamingRack(c.rack.slots)
    }

    /** Sidechain bindings of a node rack read ports of earlier nodes. */
    ghost predicate RackInPlace(n: nat, rack: Rack<S>) {
      && |rack.bindings| == |rack.buses| == |rack.slots|
      && StreamingRack(rack.slots)
      && forall j, b :: 0 <= j < |rack.bindings| && 0 <= b < |rack.bindings[j]| ==>
           BindingInPlace(n, rack.bindings[j][b], rack.buses[j])
    }

    ghost predicate BindingInPlace(n: nat, binding: Binding, buses: nat) {
      binding.sourceBuffer < |sidechainSources| && sidechainSources[binding.sourceBuffer].node < n && binding.bus < buses
    }

    ghost predicate NodeInPlace(n: nat)
      requires n < |nodes|
    {
      var node := nodes[n];
      && node.incomingStart <= node.incomingEnd <= |routes|
      && node.contributionStart <= node.contributionEnd <= |contributions|
      && (!node.origin.Track? ==> forall r :: node.incomingStart <= r < node.incomingEnd ==> routes[r].destination == n)
      && (node.origin.Track? ==> forall k :: node.contributionStart <= k < node.contributionEnd ==> contributions[k].track == n)
      && RackInPlace(n, node.preRack) && RackInPlace(n, node.postRack)
      && node.scratchSlot < slotCount
      && (forall s :: s in node.sidechainBuffers ==> s < |sidechainSources| && sidechainSources[s].node == n)
    }

    ghost predicate SnapshotTaken(s: nat)
      requires s < |sidechainSources|
    {
      sidechainSources[s].node < |nodes| && s in nodes[sidechainSources[s].node].sidechainBuffers
    }

    /** Between a node and its last consumer nobody else writes its scratch slot. */
    ghost predicate SlotKept(r: nat, k: nat)
      requires r < |routes| && k < |nodes|
    {
      routes[r].source < k <= routes[r].destination && routes[r].source < |nodes| ==>
        nodes[k].scratchSlot != nodes[routes[r].source].scratchSlot
    }

    /** A plan that needs no state entry owns no history anywhere. */
    ghost predicate Historyless() {
      && lookahead == 0
      && (forall r :: 0 <= r < |routes| ==> routes[r].compensation == 0)
      && (forall k :: 0 <= k < |contributions| ==> contributions[k].compensation == 0 && StatelessRack(contributions[k].rack))
      && (forall n :: 0 <= n < |nodes| ==> StatelessRack(nodes[n].preRack) && StatelessRack(nodes[n].postRack))
    }

    ghost predicate StatelessRack(rack: Rack<S>) {
      && (forall j :: 0 <= j < |rack.slots| ==> !rack.slots[j].processor.requiresStateEntry)
      && (forall j, b :: 0 <= j < |rack.bindings| && 0 <= b < |rack.bindings[j]| ==> rack.bindings[j][b].compensation == 0)
    }

    ghost predicate WellFormed() {
      && |nodes| > 0 && output == |nodes| - 1
      && rate > 0 && maxBlock > 0
      && (forall n :: 0 <= n < |nodes| ==> NodeInPlace(n))
      && (forall r :: 0 <= r < |routes| ==> RouteInPlace(r))
      && (forall k :: 0 <= k < |contributions| ==> ContributionInPlace(k))
      && (forall s :: 0 <= s < |sidechainSources| ==> SnapshotTaken(s))
      && (forall r, k :: 0 <= r < |routes| && 0 <= k < |nodes| ==> SlotKept(r, k))
      && lookahead == nodes[output].latency.postFader
      && (!requiresStateEntry ==> Historyless())
    }
  }

  /** A schedule fed with source PCM, in an epoch entered at `entry`.
      `signal(k, f)` is source frame `f` of contribution `k` after channel mixing. */
  datatype World<!S(!new)> = World(schedule: Schedule<S>, signal: (nat, int) -> Frame, entry: int)

  ghost function SourceAt<S(!new)>(w: World<S>, k: nat, e: int): Frame
    requires w.schedule.WellFormed() && k < |w.schedule.contributions|
  {
    var c := w.schedule.contributions[k];
    assert w.schedule.ContributionInPlace(k);
    var f := Demand(c.timeMap, w.schedule.rate, c.start, c.end, e);
    if f < 0 then Silence(w.schedule.channels) else w.signal(k, f)
  }

  /** First execution sample at which the scope rack of a contribution runs. */
  ghost function RackStart<S(!new)>(w: World<S>, c: Contribution<S>): int {
    Max(w.entry, c.start)
  }

  ghost function ScopeInput<S(!new)>(w: World<S>, k: nat, n: nat): (input: seq<Frame>)
    requires w.schedule.WellFormed() && k < |w.schedule.contributions|
    ensures |input| == n
  {
    var c := w.schedule.contributions[k];
    seq(n, i requires 0 <= i < n =>
      Scale(SourceAt(w, k, RackStart(w, c) + i), c.scopeGain.At(RackStart(w, c) + i - c.sourceLatency)))
  }

  /** Auxiliary buses without any binding carry silence. */
  ghost function SilentAux<S(!new)>(rack: Rack<S>, channels: nat, n: nat): (aux: seq<seq<AuxFrame>>)
    requires |rack.buses| == |rack.slots|
    ensures |aux| == |rack.slots| && AuxLengths(aux, n)
  {
    seq(|rack.slots|, j requires 0 <= j < |rack.slots| => seq(n, _ => seq(rack.buses[j], _ => Silence(channels))))
  }

  ghost predicate Executes<S(!new)>(c: Contribution<S>, e: int) {
    c.start <= e && (c.executionEnd.Some? ==> e < c.executionEnd.value)
  }

  /** What a contribution hands to its compensation line. */
  ghost function ContributionAt<S(!new)>(w: World<S>, k: nat, e: int): Frame
    requires w.schedule.WellFormed() && k < |w.schedule.contributions|
  {
    var c := w.schedule.contributions[k];
    assert w.schedule.ContributionInPlace(k);
    if e < w.entry || !Executes(c, e) then Silence(w.schedule.channels) else
    var i := e - RackStart(w, c);
    var out := Stage(c.rack.slots, |c.rack.slots|, RackStart(w, c), ScopeInput(w, k, i + 1), SilentAux(c.rack, w.schedule.channels, i + 1));
    if out.None? then Silence(w.schedule.channels) else
    Shape(Last(out.value, w.schedule.channels), c.editGain.At(e - c.sourceLatency - c.rackLatency))
  }

  ghost function SumContributions<S(!new)>(w: World<S>, n: nat, hi: nat, e: int): Frame
    requires w.schedule.WellFormed() && n < |w.schedule.nodes|
    requires w.schedule.nodes[n].contributionStart <= hi <= w.schedule.nodes[n].contributionEnd
    decreases hi
  {
    assert w.schedule.NodeInPlace(n);
    if hi == w.schedule.nodes[n].contributionStart then Silence(w.schedule.channels)
    else Add(SumContributions(w, n, hi - 1, e), ContributionAt(w, hi - 1, e - w.schedule.contributions[hi - 1].compensation))
  }

  ghost function SumRoutes<S(!new)>(w: World<S>, n: nat, hi: nat, e: int): Frame
    requires w.schedule.WellFormed() && n < |w.schedule.nodes|
    requires !w.schedule.nodes[n].origin.Track?
    requires w.schedule.nodes[n].incomingStart <= hi <= w.schedule.nodes[n].incomingEnd
    decreases n, 1, hi
  {
    assert w.schedule.NodeInPlace(n);
    if hi == w.schedule.nodes[n].incomingStart then Silence(w.schedule.channels) else
    var route := w.schedule.routes[hi - 1];
    assert w.schedule.RouteInPlace(hi - 1);
    Add(SumRoutes(w, n, hi - 1, e),
        Scale(PortAt(w, route.source, route.port, e - route.compensation), route.gain.At(e - w.schedule.nodes[n].latency.input)))
  }

  /** The sum at the input of a node. */
  ghost function InputAt<S(!new)>(w: World<S>, n: nat, e: int): Frame
    requires w.schedule.WellFormed() && n < |w.schedule.nodes|
    decreases n, 2
  {
    assert w.schedule.NodeInPlace(n);
    if w.schedule.nodes[n].origin.Track? then SumContributions(w, n, w.schedule.nodes[n].contributionEnd, e)
    else SumRoutes(w, n, w.schedule.nodes[n].incomingEnd, e)
  }

  /** The first `hi` bindings of one processor, summed into auxiliary bus `bus`. */
  ghost function SumBindings<S(!new)>(w: World<S>, n: nat, post: bool, j: nat, hi: nat, bus: nat, e: int): Frame
    requires w.schedule.WellFormed() && n < |w.schedule.nodes|
    requires j < |w.schedule.nodes[n].RackAt(post).slots| == |w.schedule.nodes[n].RackAt(post).bindings|
    requires hi <= |w.schedule.nodes[n].RackAt(post).bindings[j]|
    decreases n, 1, hi
  {
    assert w.schedule.NodeInPlace(n);
    var rack := w.schedule.nodes[n].RackAt(post);
    if hi == 0 then Silence(w.schedule.channels) else
    var binding := rack.bindings[j][hi - 1];
    assert w.schedule.BindingInPlace(n, binding, rack.buses[j]);
    var before := SumBindings(w, n, post, j, hi - 1, bus, e);
    if binding.bus != bus then before else
    var source := w.schedule.sidechainSources[binding.sourceBuffer];
    Add(before, Scale(PortAt(w, source.node, source.port, e - binding.compensation), binding.gain.At(e - rack.slots[j].inputDelay)))
  }

  ghost function AuxAt<S(!new)>(w: World<S>, n: nat, post: bool, j: nat, e: int): AuxFrame
    requires w.schedule.WellFormed() && n < |w.schedule.nodes|
    requires j < |w.schedule.nodes[n].RackAt(post).slots|
    decreases n, 2
  {
    assert w.schedule.NodeInPlace(n);
    var rack := w.schedule.nodes[n].RackAt(post);
    seq(rack.buses[j], bus requires 0 <= bus < rack.buses[j] => SumBindings(w, n, post, j, |rack.bindings[j]|, bus, e))
  }

  ghost function AuxHistory<S(!new)>(w: World<S>, n: nat, post: bool, length: nat): (aux: seq<seq<AuxFrame>>)
    requires w.schedule.WellFormed() && n < |w.schedule.nodes|
    ensures |aux| == |w.schedule.nodes[n].RackAt(post).slots| && AuxLengths(aux, length)
    decreases n, 3
  {
    var slots := |w.schedule.nodes[n].RackAt(post).slots|;
    seq(slots, j requires 0 <= j < slots =>
      seq(length, i requires 0 <= i < length => AuxAt(w, n, post, j, w.entry + i)))
  }

  /** What enters a rack of a node: the trimmed input, or the faded pre-fader signal. */
  ghost function RackInputAt<S(!new)>(w: World<S>, n: nat, post: bool, e: int): Frame
    requires w.schedule.WellFormed() && n < |w.schedule.nodes|
    decreases n, if post then 6 else 3
  {
    var node := w.schedule.nodes[n];
    if post then Scale(RackOutputAt(w, n, false, e), node.fader.At(e - node.latency.preFader))
    else Scale(InputAt(w, n, e), node.trim)
  }

  ghost function RackInput<S(!new)>(w: World<S>, n: nat, post: bool, length: nat): (input: seq<Frame>)
    requires w.schedule.WellFormed() && n < |w.schedule.nodes|
    ensures |input| == length
    decreases n, if post then 7 else 4
  {
    seq(length, i requires 0 <= i < length => RackInputAt(w, n, post, w.entry + i))
  }

  /** What leaves a rack of a node; silence before the epoch. */
  ghost function RackOutputAt<S(!new)>(w: World<S>, n: nat, post: bool, e: int): Frame
    requires w.schedule.WellFormed() && n < |w.schedule.nodes|
    decreases n, if post then 8 else 5
  {
    if e < w.entry then Silence(w.schedule.channels) else
    var slots := w.schedule.nodes[n].RackAt(post).slots;
    var length := e + 1 - w.entry;
    var out := Stage(slots, |slots|, w.entry, RackInput(w, n, post, length), AuxHistory(w, n, post, length));
    if out.None? then Silence(w.schedule.channels) else Last(out.value, w.schedule.channels)
  }

  /** What one port of a node carries at execution sample `e`. */
  ghost function PortAt<S(!new)>(w: World<S>, n: nat, port: Port, e: int): Frame
    requires w.schedule.WellFormed() && n < |w.schedule.nodes|
    decreases n, 9
  {
    match port
    case PreFader => RackOutputAt(w, n, false, e)
    case PostFaderPreMute => RackOutputAt(w, n, true, e)
    case PostMute => if w.schedule.nodes[n].muted then Silence(w.schedule.channels) else RackOutputAt(w, n, true, e)
  }

  /** The public Program Output at Sequence sample `p`: the output node, `lookahead` execution samples later. */
  ghost function PublicAt<S(!new)>(w: World<S>, p: int): Frame
    requires w.schedule.WellFormed()
  {
    PortAt(w, w.schedule.output, PostMute, p + w.schedule.lookahead)
  }
}
