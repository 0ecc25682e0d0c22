/** Propagation of declared latencies over the dense schedule, and the delay
    that every summing input needs so that all of them arrive together. */
module Latency {
  import opened Graph

  datatype LatencyNode = LatencyNode(
    origin: Origin,
    contributionStart: nat, contributionEnd: nat,
    routeStart: nat, routeEnd: nat,
    preRack: nat, postRack: nat)
  {
    /** Latency a signal collects between the node input and one of its ports. */
    function RackLatency(port: Port): nat {
      if port.PreFader? then preRack else preRack + postRack
    }
  }

  datatype Plan = Plan(
    contributionCompensation: seq<nat>,
    routeCompensation: seq<nat>,
    latencies: seq<NodeLatency>,
    outputLatency: nat,
    maximumCompensation: nat)

  datatype LatencyError = OutputOutside | ContributionRange | RouteRange | NotTopological | FrameRange

  datatype Result = Ok(plan: Plan) | Err(error: LatencyError)

  /** The prepared topology handed to the solver. */
  datatype Topology = Topology(nodes: seq<LatencyNode>, routes: seq<Route>, intrinsic: seq<nat>, output: nat) {

    /** Contribution ranges are laid out in node order, as preparation groups them. */
    ghost predicate RangesOrdered() {
      forall m, n :: 0 <= m < n < |nodes| ==> nodes[m].contributionEnd <= nodes[n].contributionStart
    }

    ghost predicate RangesInside(n: nat)
      requires n < |nodes|
    {
      var node := nodes[n];
      if node.origin.Track? then node.contributionStart <= node.contributionEnd <= |intrinsic|
      else
        && node.routeStart <= node.routeEnd <= |routes|
        && forall r :: node.routeStart <= r < node.routeEnd ==> routes[r].destination == n && routes[r].source < n
    }
  }

  /** How late the signal of a route is at its source port. */
  ghost function Arrival(t: Topology, latencies: seq<NodeLatency>, r: nat): nat
    requires r < |t.routes|
  {
    if t.routes[r].source < |latencies| then latencies[t.routes[r].source].At(t.routes[r].port) else 0
  }

  /** `maximum` is the greatest of the values at `[from, to)`, zero when there are none. */
  ghost predicate IsMaximum(values: seq<nat>, from: nat, to: nat, maximum: nat)
    requires from <= to <= |values|
  {
    && (forall k :: from <= k < to ==> values[k] <= maximum)
    && (if from == to then maximum == 0 else exists k :: from <= k < to && values[k] == maximum)
  }

  ghost function Arrivals(t: Topology, latencies: seq<NodeLatency>): (arrivals: seq<nat>)
    ensures |arrivals| == |t.routes|
  {
    seq(|t.routes|, r requires 0 <= r < |t.routes| => Arrival(t, latencies, r))
  }

  /** The equations of one node: Routes wait for the latest of them, and its ports add the rack latencies
      to the latest input. */
  ghost predicate NodeTimed(t: Topology, n: nat, latencies: seq<NodeLatency>, routes: seq<nat>)
    requires n < |t.nodes| && n < |latencies| && |routes| == |t.routes|
  {
    var node, latency := t.nodes[n], latencies[n];
    && t.RangesInside(n)
    && (if node.origin.Track? then IsMaximum(t.intrinsic, node.contributionStart, node.contributionEnd, latency.input)
        else
          && IsMaximum(Arrivals(t, latencies), node.routeStart, node.routeEnd, latency.input)
          && forall r :: node.routeStart <= r < node.routeEnd ==>
               routes[r] == latency.input - Arrival(t, latencies, r))
    && latency.preFader == latency.input + node.preRack
    && latency.postFader == latency.preFader + node.postRack <= USIZE_MAX
  }

  /** And its contributions wait for the latest of them. */
  ghost predicate NodeSolved(t: Topology, n: nat, latencies: seq<NodeLatency>, contributions: seq<nat>, routes: seq<nat>)
    requires n < |t.nodes| && n < |latencies|
    requires |contributions| == |t.intrinsic| && |routes| == |t.routes|
  {
    && NodeTimed(t, n, latencies, routes)
    && (t.nodes[n].origin.Track? ==>
          forall k :: t.nodes[n].contributionStart <= k < t.nodes[n].contributionEnd ==> contributions[k] == latencies[n].input - t.intrinsic[k])
  }

  /** Track `n` is the last of the first `hi` nodes whose range holds contribution `k`. */
  ghost predicate Owns(t: Topology, n: nat, hi: nat, k: nat)
    requires n < hi <= |t.nodes|
  {
    && t.nodes[n].origin.Track? && t.nodes[n].contributionStart <= k < t.nodes[n].contributionEnd
    && forall m :: n < m < hi && t.nodes[m].origin.Track? ==> !(t.nodes[m].contributionStart <= k < t.nodes[m].contributionEnd)
  }

  /** Every contribution waits for the latest one of its last owner. */
  ghost predicate OwnersAligned(t: Topology, hi: nat, latencies: seq<NodeLatency>, contributions: seq<nat>)
    requires hi <= |t.nodes| && hi <= |latencies| && |contributions| == |t.intrinsic|
  {
    forall n, k :: 0 <= n < hi && 0 <= k < |contributions| && Owns(t, n, hi, k) ==> contributions[k] == latencies[n].input - t.intrinsic[k]
  }

  /** A plan that solves the equations of all latencies and Routes, and aligns the contributions of their last owners. */
  ghost predicate Timed(t: Topology, plan: Plan) {
    && t.output < |t.nodes|
    && |plan.latencies| == |t.nodes|
    && |plan.contributionCompensation| == |t.intrinsic|
    && |plan.routeCompensation| == |t.routes|
    && (forall n :: 0 <= n < |t.nodes| ==> NodeTimed(t, n, plan.latencies, plan.routeCompensation))
    && OwnersAligned(t, |t.nodes|, plan.latencies, plan.contributionCompensation)
    && plan.outputLatency == plan.latencies[t.output].postFader
  }

  ghost predicate Solved(t: Topology, plan: Plan) {
    && t.output < |t.nodes|
    && |plan.latencies| == |t.nodes|
    && |plan.contributionCompensation| == |t.intrinsic|
    && |plan.routeCompensation| == |t.routes|
    && (forall n :: 0 <= n < |t.nodes| ==>
          NodeSolved(t, n, plan.latencies, plan.contributionCompensation, plan.routeCompensation))
    && plan.outputLatency == plan.latencies[t.output].postFader
  }

  /** The largest compensation anywhere bounds the delay storage of one line. */
  ghost predicate BoundsCompensation(plan: Plan) {
    && (forall k :: 0 <= k < |plan.contributionCompensation| ==> plan.contributionCompensation[k] <= plan.maximumCompensation)
    && (forall r :: 0 <= r < |plan.routeCompensation| ==> plan.routeCompensation[r] <= plan.maximumCompensation)
  }

  ghost predicate ContributionWaits(t: Topology, latencies: seq<NodeLatency>, n: nat, k: nat, wait: nat) {
    && n < |t.nodes| && n < |latencies| && t.nodes[n].origin.Track? && t.RangesInside(n)
    && t.nodes[n].contributionStart <= k < t.nodes[n].contributionEnd && wait + t.intrinsic[k] == latencies[n].input
  }

  ghost predicate RouteWaits(t: Topology, latencies: seq<NodeLatency>, n: nat, r: nat, wait: nat) {
    && n < |t.nodes| && n < |latencies| && !t.nodes[n].origin.Track? && t.RangesInside(n)
    && t.nodes[n].routeStart <= r < t.nodes[n].routeEnd && wait + Arrival(t, latencies, r) == latencies[n].input
  }

  /** Something waits for that long, if for anything. */
  ghost predicate Attained(t: Topology, latencies: seq<NodeLatency>, maximum: nat) {
    || maximum == 0
    || (exists n: nat, k: nat :: ContributionWaits(t, latencies, n, k, maximum))
    || (exists n: nat, r: nat :: RouteWaits(t, latencies, n, r, maximum))
  }

  lemma AttainedMore(t: Topology, n: nat, latencies: seq<NodeLatency>, latency: NodeLatency, before: nat, maximum: nat)
    requires n < |t.nodes| && n == |latencies| && t.RangesInside(n) && Attained(t, latencies, before)
    requires || maximum == before
             || (t.nodes[n].origin.Track? && exists k: nat :: t.nodes[n].contributionStart <= k < t.nodes[n].contributionEnd && maximum + t.intrinsic[k] == latency.input)
             || (!t.nodes[n].origin.Track? && exists r: nat :: t.nodes[n].routeStart <= r < t.nodes[n].routeEnd && maximum + Arrival(t, latencies, r) == latency.input)
    ensures Attained(t, latencies + [latency], maximum)
  {
    var more := latencies + [latency];
    if maximum == before {
      if m: nat, k: nat :| ContributionWaits(t, latencies, m, k, maximum) {
        assert ContributionWaits(t, more, m, k, maximum);
      } else if m: nat, r: nat :| RouteWaits(t, latencies, m, r, maximum) {
        assert RouteWaits(t, more, m, r, maximum);
      }
    } else if t.nodes[n].origin.Track? {
      var k: nat :| t.nodes[n].contributionStart <= k < t.nodes[n].contributionEnd && maximum + t.intrinsic[k] == latency.input;
      assert ContributionWaits(t, more, n, k, maximum);
    } else {
      var r: nat :| t.nodes[n].routeStart <= r < t.nodes[n].routeEnd && maximum + Arrival(t, latencies, r) == latency.input;
      assert RouteWaits(t, more, n, r, maximum);
    }
  }

  lemma MaximumUnique(values: seq<nat>, from: nat, to: nat, a: nat, b: nat)
    requires from <= to <= |values|
    requires IsMaximum(values, from, to, a) && IsMaximum(values, from, to, b)
    ensures a == b
  {}

  /** Two solutions agree on every node up to `n`: the equations determine the plan. */
  lemma {:induction false} LatenciesUnique(t: Topology, n: nat, latencies: seq<NodeLatency>, routes: seq<nat>,
                                           latencies': seq<NodeLatency>, routes': seq<nat>)
    requires n < |t.nodes| && n < |latencies| && n < |latencies'| && |routes| == |routes'| == |t.routes|
    requires forall m :: 0 <= m <= n ==> NodeTimed(t, m, latencies, routes)
    requires forall m :: 0 <= m <= n ==> NodeTimed(t, m, latencies', routes')
    ensures latencies[n] == latencies'[n]
    decreases n
  {
    var node := t.nodes[n];
    assert NodeTimed(t, n, latencies, routes);
    assert NodeTimed(t, n, latencies', routes');
    if node.origin.Track? {
      MaximumUnique(t.intrinsic, node.contributionStart, node.contributionEnd, latencies[n].input, latencies'[n].input);
    } else {
      forall r: nat | node.routeStart <= r < node.routeEnd
        ensures Arrivals(t, latencies)[r] == Arrivals(t, latencies')[r]
      {
        LatenciesUnique(t, t.routes[r].source, latencies, routes, latencies', routes');
      }
      SameMaximum(Arrivals(t, latencies), Arrivals(t, latencies'), node.routeStart, node.routeEnd, latencies[n].input, latencies'[n].input);
    }
  }

  lemma SameMaximum(values: seq<nat>, values': seq<nat>, from: nat, to: nat, a: nat, b: nat)
    requires from <= to <= |values| && |values| == |values'|
    requires forall k :: from <= k < to ==> values[k] == values'[k]
    requires IsMaximum(values, from, to, a) && IsMaximum(values', from, to, b)
    ensures a == b
  {}

  /** The latest arrival at the input of node `n`. */
  ghost predicate IsInput(t: Topology, n: nat, latencies: seq<NodeLatency>, input: nat)
    requires n < |t.nodes| && t.RangesInside(n)
  {
    var node := t.nodes[n];
    if node.origin.Track? then IsMaximum(t.intrinsic, node.contributionStart, node.contributionEnd, input)
    else IsMaximum(Arrivals(t, latencies), node.routeStart, node.routeEnd, input)
  }

  /** Any plan has, at node `n`, the input that follows from the solved nodes before it. */
  lemma InputAgrees(t: Topology, n: nat, latencies: seq<NodeLatency>, routes: seq<nat>, input: nat, plan: Plan)
    requires n < |t.nodes| && n <= |latencies| && |routes| == |t.routes|
    requires forall m :: 0 <= m < n ==> NodeTimed(t, m, latencies, routes)
    requires Timed(t, plan)
    ensures t.RangesInside(n)
    ensures IsInput(t, n, latencies, input) ==> plan.latencies[n].input == input
    ensures plan.latencies[n].input + t.nodes[n].preRack + t.nodes[n].postRack <= USIZE_MAX
  {
    assert NodeTimed(t, n, plan.latencies, plan.routeCompensation);
    var node := t.nodes[n];
    if !node.origin.Track? && IsInput(t, n, latencies, input) {
      forall r: nat | node.routeStart <= r < node.routeEnd
        ensures Arrivals(t, latencies)[r] == Arrivals(t, plan.latencies)[r]
      {
        LatenciesUnique(t, t.routes[r].source, latencies, routes, plan.latencies, plan.routeCompensation);
      }
      SameMaximum(Arrivals(t, latencies), Arrivals(t, plan.latencies), node.routeStart, node.routeEnd, input, plan.latencies[n].input);
    }
  }

  /** A node whose ranges are wrong or whose exact latency does not fit rules out every plan. */
  lemma NoPlan(t: Topology, n: nat, latencies: seq<NodeLatency>, routes: seq<nat>, input: nat)
    requires n < |t.nodes| && n <= |latencies| && |routes| == |t.routes|
    requires forall m :: 0 <= m < n ==> NodeTimed(t, m, latencies, routes)
    requires t.RangesInside(n) ==>
               IsInput(t, n, latencies, input) && input + t.nodes[n].preRack + t.nodes[n].postRack > USIZE_MAX
    ensures forall plan :: !Timed(t, plan)
  {
    forall plan | Timed(t, plan)
      ensures false
    {
      InputAgrees(t, n, latencies, routes, input, plan);
    }
  }

  /** What each refusal says about node `n`. */
  ghost predicate RefusedAt(t: Topology, n: nat, error: LatencyError)
    requires n < |t.nodes|
  {
    var node := t.nodes[n];
    match error
    case OutputOutside => false
    case ContributionRange => node.origin.Track? && !t.RangesInside(n)
    case RouteRange => !node.origin.Track? && !(node.routeStart <= node.routeEnd <= |t.routes|)
    case NotTopological => !node.origin.Track? && node.routeStart <= node.routeEnd <= |t.routes| && !t.RangesInside(n)
    case FrameRange => exists latencies, routes, input: nat :: Exceeds(t, n, latencies, routes, input)
  }

  /** Solved up to node `n`, whose exact latency does not fit. */
  ghost predicate Exceeds(t: Topology, n: nat, latencies: seq<NodeLatency>, routes: seq<nat>, input: nat)
    requires n < |t.nodes|
  {
    && n <= |latencies| && |routes| == |t.routes|
    && (forall m :: 0 <= m < n ==> NodeTimed(t, m, latencies, routes))
    && t.RangesInside(n) && IsInput(t, n, latencies, input)
    && input + t.nodes[n].preRack + t.nodes[n].postRack > USIZE_MAX
  }

  ghost predicate Refused(t: Topology, error: LatencyError) {
    if error.OutputOutside? then t.output >= |t.nodes| else exists n :: 0 <= n < |t.nodes| && RefusedAt(t, n, error)
  }

  /** Align the contributions of one track to the latest of them. */
  method AlignContributions(t: Topology, n: nat, before: seq<nat>, maximumBefore: nat)
    returns (input: nat, compensation: seq<nat>, maximum: nat)
    requires n < |t.nodes| && t.RangesInside(n) && t.nodes[n].origin.Track?
    requires |before| == |t.intrinsic|
    requires forall k :: 0 <= k < |before| ==> before[k] <= maximumBefore
    ensures IsInput(t, n, [], input)
    ensures |compensation| == |before|
    ensures forall k :: 0 <= k < |before| ==>
              compensation[k] == if t.nodes[n].contributionStart <= k < t.nodes[n].contributionEnd then input - t.intrinsic[k] else before[k]
    ensures forall k :: 0 <= k < |compensation| ==> compensation[k] <= maximum
    ensures maximum == maximumBefore
            || exists k: nat :: t.nodes[n].contributionStart <= k < t.nodes[n].contributionEnd && maximum + t.intrinsic[k] == input
    ensures maximum >= maximumBefore
  {
    var node := t.nodes[n];
    input := 0;
    for k := node.contributionStart to node.contributionEnd
      invariant IsMaximum(t.intrinsic, node.contributionStart, k, input)
    {
      if t.intrinsic[k] > input {
        input := t.intrinsic[k];
      }
    }
    compensation, maximum := before, maximumBefore;
    for k := node.contributionStart to node.contributionEnd
      invariant |compensation| == |before|
      invariant forall j :: 0 <= j < |before| ==>
                  compensation[j] == if node.contributionStart <= j < k then input - t.intrinsic[j] else before[j]
      invariant forall j :: 0 <= j < |compensation| ==> compensation[j] <= maximum
      invariant maximum == maximumBefore || exists j: nat :: node.contributionStart <= j < k && maximum + t.intrinsic[j] == input
      invariant maximum >= maximumBefore
    {
      compensation := compensation[k := input - t.intrinsic[k]];
      if compensation[k] > maximum {
        maximum := compensation[k];
      }
    }
  }

  /** Align the incoming routes of one bus or output to the latest of them. */
  method AlignRoutes(t: Topology, n: nat, latencies: seq<NodeLatency>, before: seq<nat>, maximumBefore: nat)
    returns (input: nat, compensation: seq<nat>, maximum: nat)
    requires n < |t.nodes| && t.RangesInside(n) && !t.nodes[n].origin.Track?
    requires |latencies| == n && |before| == |t.routes|
    requires forall r :: 0 <= r < |before| ==> before[r] <= maximumBefore
    ensures IsInput(t, n, latencies, input)
    ensures |compensation| == |before|
    ensures forall r :: 0 <= r < |before| ==>
              compensation[r] == if t.nodes[n].routeStart <= r < t.nodes[n].routeEnd then input - Arrival(t, latencies, r) else before[r]
    ensures forall r :: 0 <= r < |compensation| ==> compensation[r] <= maximum
    ensures maximum == maximumBefore
            || exists r: nat :: t.nodes[n].routeStart <= r < t.nodes[n].routeEnd && maximum + Arrival(t, latencies, r) == input
    ensures maximum >= maximumBefore
  {
    var node := t.nodes[n];
    input := 0;
    ghost var arrivals := Arrivals(t, latencies);
    for r := node.routeStart to node.routeEnd
      invariant IsMaximum(arrivals, node.routeStart, r, input)
    {
      var arrival := latencies[t.routes[r].source].At(t.routes[r].port);
      assert arrivals[r] == arrival;
      if arrival > input {
        input := arrival;
      }
    }
    compensation, maximum := before, maximumBefore;
    for r := node.routeStart to node.routeEnd
      invariant |compensation| == |before|
      invariant forall j :: 0 <= j < |before| ==>
                  compensation[j] == if node.routeStart <= j < r then input - Arrival(t, latencies, j) else before[j]
      invariant forall j :: 0 <= j < |compensation| ==> compensation[j] <= maximum
      invariant maximum == maximumBefore || exists j: nat :: node.routeStart <= j < r && maximum + Arrival(t, latencies, j) == input
      invariant maximum >= maximumBefore
    {
      var arrival := latencies[t.routes[r].source].At(t.routes[r].port);
      assert arrivals[r] == arrival <= input;
      compensation := compensation[r := input - arrival];
      if compensation[r] > maximum {
        maximum := compensation[r];
      }
    }
  }

  /** Check one range as the solver meets it. */
  method CheckRanges(t: Topology, n: nat) returns (error: LatencyError, valid: bool)
    requires n < |t.nodes|
    ensures valid <==> t.RangesInside(n)
    ensures !valid ==> RefusedAt(t, n, error)
  {
    var node := t.nodes[n];
    if node.origin.Track? {
      return ContributionRange, node.contributionStart <= node.contributionEnd <= |t.intrinsic|;
    }
    if !(node.routeStart <= node.routeEnd <= |t.routes|) {
      return RouteRange, false;
    }
    for r := node.routeStart to node.routeEnd
      invariant forall j :: node.routeStart <= j < r ==> t.routes[j].destination == n && t.routes[j].source < n
    {
      if t.routes[r].destination != n || t.routes[r].source >= n {
        return NotTopological, false;
      }
    }
    return NotTopological, true;
  }

  /** Later nodes and their disjoint ranges leave a solved node solved. */
  lemma TimedIsKept(t: Topology, m: nat, latencies: seq<NodeLatency>, more: seq<NodeLatency>, routes: seq<nat>, routes': seq<nat>)
    requires m < |t.nodes| && m < |latencies| && |routes| == |routes'| == |t.routes|
    requires NodeTimed(t, m, latencies, routes)
    requires !t.nodes[m].origin.Track? ==>
               forall r :: t.nodes[m].routeStart <= r < t.nodes[m].routeEnd ==> routes'[r] == routes[r]
    ensures NodeTimed(t, m, latencies + more, routes')
  {
    var node := t.nodes[m];
    if !node.origin.Track? {
      var a, b := Arrivals(t, latencies), Arrivals(t, latencies + more);
      assert forall r :: node.routeStart <= r < node.routeEnd ==> a[r] == b[r] == Arrival(t, latencies, r) == Arrival(t, latencies + more, r);
      assert IsMaximum(b, node.routeStart, node.routeEnd, latencies[m].input);
    }
  }

  lemma OwnersAlignedMore(t: Topology, n: nat, latencies: seq<NodeLatency>, latency: NodeLatency, before: seq<nat>, contributions: seq<nat>)
    requires n < |t.nodes| && |latencies| == n && |before| == |contributions| == |t.intrinsic|
    requires OwnersAligned(t, n, latencies, before)
    requires forall k :: 0 <= k < |before| ==>
               contributions[k] == if t.nodes[n].origin.Track? && t.nodes[n].contributionStart <= k < t.nodes[n].contributionEnd
                                   then latency.input - t.intrinsic[k] else before[k]
    ensures OwnersAligned(t, n + 1, latencies + [latency], contributions)
  {
    forall m, k | 0 <= m < n && 0 <= k < |contributions| && Owns(t, m, n + 1, k)
      ensures contributions[k] == latencies[m].input - t.intrinsic[k]
    {
      assert Owns(t, m, n, k);
    }
  }

  /** Ranges in node order do not overlap, so every contribution has one owner. */
  lemma OrderedIsSolved(t: Topology, plan: Plan)
    requires Timed(t, plan) && t.RangesOrdered()
    ensures Solved(t, plan)
  {
    forall n | 0 <= n < |t.nodes|
      ensures NodeSolved(t, n, plan.latencies, plan.contributionCompensation, plan.routeCompensation)
    {
      assert NodeTimed(t, n, plan.latencies, plan.routeCompensation);
      if t.nodes[n].origin.Track? {
        forall k | t.nodes[n].contributionStart <= k < t.nodes[n].contributionEnd
          ensures plan.contributionCompensation[k] == plan.latencies[n].input - t.intrinsic[k]
        {
          assert Owns(t, n, |t.nodes|, k);
        }
      }
    }
  }

  /** A solution of all equations, or none exists that fits. Where ranges overlap, a contribution waits for
      the inputs of the last track that has it. */
  method SolvePreparedLatency(t: Topology) returns (result: Result)
    ensures result.Ok? ==> Timed(t, result.plan) && BoundsCompensation(result.plan) && Attained(t, result.plan.latencies, result.plan.maximumCompensation)
    ensures result.Ok? && t.RangesOrdered() ==> Solved(t, result.plan)
    ensures result.Err? ==> Refused(t, result.error) && forall plan :: !Timed(t, plan)
  {
    hide IsInput, IsMaximum, Arrivals, RefusedAt, OwnersAligned, Attained;
    assert Attained(t, [], 0) by { NothingWaits(t); }
    if t.output >= |t.nodes| {
      return Err(OutputOutside);
    }
    var contributions: seq<nat> := seq(|t.intrinsic|, _ => 0);
    var routes: seq<nat> := seq(|t.routes|, _ => 0);
    var latencies: seq<NodeLatency> := [];
    NobodyOwns(t, contributions);
    var maximum: nat := 0;
    for n := 0 to |t.nodes|
      invariant |latencies| == n
      invariant |contributions| == |t.intrinsic| && |routes| == |t.routes|
      invariant forall m :: 0 <= m < n ==> NodeTimed(t, m, latencies, routes)
      invariant OwnersAligned(t, n, latencies, contributions)
      invariant Attained(t, latencies, maximum)
      invariant forall k :: 0 <= k < |contributions| ==> contributions[k] <= maximum
      invariant forall r :: 0 <= r < |routes| ==> routes[r] <= maximum
    {
      var node := t.nodes[n];
      var error, valid := CheckRanges(t, n);
      if !valid {
        NoPlan(t, n, latencies, routes, 0);
        return Err(error);
      }
      var input: nat;
      ghost var contributionsBefore, routesBefore, longest := contributions, routes, maximum;
      if node.origin.Track? {
        var larger;
        input, contributions, larger := AlignContributions(t, n, contributions, maximum);
        maximum := if larger > maximum then larger else maximum;
      } else {
        var larger;
        input, routes, larger := AlignRoutes(t, n, latencies, routes, maximum);
        maximum := if larger > maximum then larger else maximum;
      }
      if input + node.preRack + node.postRack > USIZE_MAX {
        NoPlan(t, n, latencies, routesBefore, input);
        ExceedsHere(t, n, latencies, routesBefore, input);
        return Err(FrameRange);
      }
      var latency := NodeLatency(input, input + node.preRack, input + node.preRack + node.postRack);
      forall m | 0 <= m < n
        ensures NodeTimed(t, m, latencies + [latency], routes)
      {
        assert NodeTimed(t, m, latencies, routesBefore);
        TimedIsKept(t, m, latencies, [latency], routesBefore, routes);
      }
      NewlyTimed(t, n, latencies, latency, routes);
      OwnersAlignedMore(t, n, latencies, latency, contributionsBefore, contributions);
      AttainedMore(t, n, latencies, latency, longest, maximum);
      latencies := latencies + [latency];
    }
    var plan := Plan(contributions, routes, latencies, latencies[t.output].postFader, maximum);
    if t.RangesOrdered() {
      OrderedIsSolved(t, plan);
    }
    return Ok(plan);
  }

  lemma NothingWaits(t: Topology)
    ensures Attained(t, [], 0)
  {}

  lemma NobodyOwns(t: Topology, contributions: seq<nat>)
    requires |contributions| == |t.intrinsic|
    ensures OwnersAligned(t, 0, [], contributions)
  {}

  lemma ExceedsHere(t: Topology, n: nat, latencies: seq<NodeLatency>, routes: seq<nat>, input: nat)
    requires n < |t.nodes| && Exceeds(t, n, latencies, routes, input)
    ensures RefusedAt(t, n, FrameRange)
  {}

  lemma NewlyTimed(t: Topology, n: nat, latencies: seq<NodeLatency>, latency: NodeLatency, routes: seq<nat>)
    requires n < |t.nodes| && n == |latencies| && t.RangesInside(n) && |routes| == |t.routes|
    requires IsInput(t, n, latencies, latency.input)
    requires latency.preFader == latency.input + t.nodes[n].preRack
    requires latency.postFader == latency.preFader + t.nodes[n].postRack <= USIZE_MAX
    requires !t.nodes[n].origin.Track? ==>
               forall r :: t.nodes[n].routeStart <= r < t.nodes[n].routeEnd ==> routes[r] == latency.input - Arrival(t, latencies, r)
    ensures NodeTimed(t, n, latencies + [latency], routes)
  {
    var node := t.nodes[n];
    if !node.origin.Track? {
      var a, b := Arrivals(t, latencies), Arrivals(t, latencies + [latency]);
      assert forall r :: node.routeStart <= r < node.routeEnd ==>
          a[r] == b[r] == Arrival(t, latencies, r) == Arrival(t, latencies + [latency], r);
    }
  }

  // ------------------------------------------------------------------ how large latencies can become

  ghost function Sum(values: seq<nat>): nat {
    if |values| == 0 then 0 else Sum(values[..|values| - 1]) + values[|values| - 1]
  }

  ghost function RackTotal(nodes: seq<LatencyNode>): nat {
    if |nodes| == 0 then 0 else
    RackTotal(nodes[..|nodes| - 1]) + nodes[|nodes| - 1].preRack + nodes[|nodes| - 1].postRack
  }

  lemma {:induction false} SumBounds(values: seq<nat>, k: nat)
    requires k < |values|
    ensures values[k] <= Sum(values)
    decreases |values|
  {
    if k < |values| - 1 {
      SumBounds(values[..|values| - 1], k);
    }
  }

  lemma {:induction false} RackTotalGrows(nodes: seq<LatencyNode>, k: nat)
    requires k <= |nodes|
    ensures RackTotal(nodes[..k]) <= RackTotal(nodes)
    decreases |nodes|
  {
    if k < |nodes| {
      RackTotalGrows(nodes[..|nodes| - 1], k);
      assert nodes[..|nodes| - 1][..k] == nodes[..k];
    } else {
      assert nodes[..k] == nodes;
    }
  }

  /** No input is later than everything that delays in the whole topology before it. */
  lemma {:induction false} InputBounded(t: Topology, n: nat, latencies: seq<NodeLatency>, routes: seq<nat>, input: nat)
    requires n < |t.nodes| && n <= |latencies| && |routes| == |t.routes|
    requires forall m :: 0 <= m < n ==> NodeTimed(t, m, latencies, routes)
    requires t.RangesInside(n) && IsInput(t, n, latencies, input)
    ensures input <= Sum(t.intrinsic) + RackTotal(t.nodes[..n])
    decreases n
  {
    var node := t.nodes[n];
    if node.origin.Track? {
      if node.contributionStart < node.contributionEnd {
        var k: nat :| node.contributionStart <= k < node.contributionEnd && t.intrinsic[k] == input;
        SumBounds(t.intrinsic, k);
      }
    } else if node.routeStart < node.routeEnd {
      var r: nat :| node.routeStart <= r < node.routeEnd && Arrivals(t, latencies)[r] == input;
      var source := t.routes[r].source;
      assert NodeTimed(t, source, latencies, routes);
      InputBounded(t, source, latencies, routes, latencies[source].input);
      assert t.nodes[..source + 1][..source] == t.nodes[..source];
      assert t.nodes[..n][..source + 1] == t.nodes[..source + 1];
      RackTotalGrows(t.nodes[..n], source + 1);
    }
  }

  /** A latency that does not fit needs that much delay in the topology. */
  lemma ExceedsBound(t: Topology, n: nat)
    requires n < |t.nodes| && RefusedAt(t, n, FrameRange)
    ensures Sum(t.intrinsic) + RackTotal(t.nodes) > USIZE_MAX
  {
    var latencies, routes, input: nat :| Exceeds(t, n, latencies, routes, input);
    InputBounded(t, n, latencies, routes, input);
    assert t.nodes[..n + 1][..n] == t.nodes[..n];
    RackTotalGrows(t.nodes, n + 1);
  }

  /** The lookahead is at most everything that delays. */
  lemma OutputBounded(t: Topology, plan: Plan)
    requires Solved(t, plan)
    ensures plan.outputLatency <= Sum(t.intrinsic) + RackTotal(t.nodes)
  {
    var n := t.output;
    forall m | 0 <= m < |t.nodes|
      ensures NodeTimed(t, m, plan.latencies, plan.routeCompensation)
    {
      assert NodeSolved(t, m, plan.latencies, plan.contributionCompensation, plan.routeCompensation);
    }
    assert NodeTimed(t, n, plan.latencies, plan.routeCompensation);
    InputBounded(t, n, plan.latencies, plan.routeCompensation, plan.latencies[n].input);
    assert t.nodes[..n + 1][..n] == t.nodes[..n];
    RackTotalGrows(t.nodes, n + 1);
  }

  /** Where the signal of a path begins: in a contribution, or in a node that sums nothing. */
  datatype Origination = FromContribution(index: nat) | FromEmptySum(node: nat)

  ghost predicate IsOrigination(t: Topology, from: Origination, node: nat) {
    node < |t.nodes| &&
    match from
    case FromContribution(index) =>
      t.nodes[node].origin.Track? && t.nodes[node].contributionStart <= index < t.nodes[node].contributionEnd
    case FromEmptySum(empty) =>
      && node == empty
      && (if t.nodes[node].origin.Track? then t.nodes[node].contributionStart == t.nodes[node].contributionEnd
          else t.nodes[node].routeStart == t.nodes[node].routeEnd)
  }

  /** `routes` leads from the origination to the input of `node`. */
  ghost predicate IsPath(t: Topology, from: Origination, routes: seq<nat>, node: nat)
    decreases |routes|
  {
    if |routes| == 0 then IsOrigination(t, from, node) else
    var r := routes[|routes| - 1];
    && r < |t.routes| && t.routes[r].destination == node < |t.nodes|
    && !t.nodes[node].origin.Track? && t.nodes[node].routeStart <= r < t.nodes[node].routeEnd
    && t.routes[r].source < |t.nodes|
    && IsPath(t, from, routes[..|routes| - 1], t.routes[r].source)
  }

  /** Everything that delays the signal up to the end of the path: what it starts
      with, every compensation and every rack it crosses on the way to its source port. */
  ghost function Delay(t: Topology, plan: Plan, from: Origination, routes: seq<nat>, node: nat): nat
    requires Solved(t, plan) && IsPath(t, from, routes, node)
    decreases |routes|
  {
    if |routes| == 0 then
      (match from
       case FromContribution(index) => InRangeContribution(t, plan, index, node); t.intrinsic[index] + plan.contributionCompensation[index]
       case FromEmptySum(_) => 0)
    else
      var r := routes[|routes| - 1];
      Delay(t, plan, from, routes[..|routes| - 1], t.routes[r].source)
      + t.nodes[t.routes[r].source].RackLatency(t.routes[r].port)
      + plan.routeCompensation[r]
  }

  lemma InRangeContribution(t: Topology, plan: Plan, index: nat, node: nat)
    requires Solved(t, plan) && IsOrigination(t, FromContribution(index), node)
    ensures index < |t.intrinsic|
  {
    assert NodeSolved(t, node, plan.latencies, plan.contributionCompensation, plan.routeCompensation);
  }

  /** The same without the inserted compensation. */
  ghost function RawDelay(t: Topology, plan: Plan, from: Origination, routes: seq<nat>, node: nat): nat
    requires Solved(t, plan) && IsPath(t, from, routes, node)
    decreases |routes|
  {
    if |routes| == 0 then
      (match from
       case FromContribution(index) => InRangeContribution(t, plan, index, node); t.intrinsic[index]
       case FromEmptySum(_) => 0)
    else
      var r := routes[|routes| - 1];
      RawDelay(t, plan, from, routes[..|routes| - 1], t.routes[r].source)
      + t.nodes[t.routes[r].source].RackLatency(t.routes[r].port)
  }

  /** Every path into a node is delayed by the same amount, and no uncompensated path is longer. */
  lemma {:induction false} EveryPathAligned(t: Topology, plan: Plan, from: Origination, routes: seq<nat>, node: nat)
    requires Solved(t, plan) && IsPath(t, from, routes, node)
    ensures Delay(t, plan, from, routes, node) == plan.latencies[node].input
    ensures RawDelay(t, plan, from, routes, node) <= plan.latencies[node].input
    decreases |routes|
  {
    assert NodeSolved(t, node, plan.latencies, plan.contributionCompensation, plan.routeCompensation);
    if |routes| > 0 {
      var r := routes[|routes| - 1];
      var source := t.routes[r].source;
      EveryPathAligned(t, plan, from, routes[..|routes| - 1], source);
      assert NodeSolved(t, source, plan.latencies, plan.contributionCompensation, plan.routeCompensation);
      assert Arrivals(t, plan.latencies)[r] == Arrival(t, plan.latencies, r) <= plan.latencies[node].input;
    }
  }

  /** Measured through the output node, every path of the plan takes exactly the output latency. */
  lemma OutputPathsAligned(t: Topology, plan: Plan, from: Origination, routes: seq<nat>)
    requires Solved(t, plan) && IsPath(t, from, routes, t.output)
    ensures Delay(t, plan, from, routes, t.output) + t.nodes[t.output].RackLatency(PostMute) == plan.outputLatency
  {
    EveryPathAligned(t, plan, from, routes, t.output);
    assert NodeSolved(t, t.output, plan.latencies, plan.contributionCompensation, plan.routeCompensation);
  }

  /** The input latency of a node is not only an upper bound: some path reaches it with no compensation at all. */
  lemma {:induction false} LongestPathAttained(t: Topology, plan: Plan, node: nat) returns (from: Origination, routes: seq<nat>)
    requires Solved(t, plan) && node < |t.nodes|
    ensures IsPath(t, from, routes, node)
    ensures RawDelay(t, plan, from, routes, node) == plan.latencies[node].input
    decreases node
  {
    assert NodeSolved(t, node, plan.latencies, plan.contributionCompensation, plan.routeCompensation);
    var n := t.nodes[node];
    var input := plan.latencies[node].input;
    routes := [];
    if n.origin.Track? {
      if n.contributionStart == n.contributionEnd {
        from := FromEmptySum(node);
      } else {
        var k: nat :| n.contributionStart <= k < n.contributionEnd && t.intrinsic[k] == input;
        from := FromContribution(k);
      }
    } else if n.routeStart == n.routeEnd {
      from := FromEmptySum(node);
    } else {
      var r: nat :| n.routeStart <= r < n.routeEnd && Arrivals(t, plan.latencies)[r] == input;
      var source := t.routes[r].source;
      var before;
      from, before := LongestPathAttained(t, plan, source);
      assert NodeSolved(t, source, plan.latencies, plan.contributionCompensation, plan.routeCompensation);
      routes := before + [r];
      assert routes[..|routes| - 1] == before;
    }
  }

  /** No sum waits for nothing: a non-empty one has an input that is not delayed at all. */
  lemma SomeInputUndelayed(t: Topology, plan: Plan, node: nat) returns (index: nat)
    requires Solved(t, plan) && node < |t.nodes|
    requires !IsOrigination(t, FromEmptySum(node), node)
    ensures t.nodes[node].origin.Track? ==>
              t.nodes[node].contributionStart <= index < t.nodes[node].contributionEnd && index < |plan.contributionCompensation|
              && plan.contributionCompensation[index] == 0
    ensures !t.nodes[node].origin.Track? ==>
              t.nodes[node].routeStart <= index < t.nodes[node].routeEnd && index < |plan.routeCompensation|
              && plan.routeCompensation[index] == 0
  {
    assert NodeSolved(t, node, plan.latencies, plan.contributionCompensation, plan.routeCompensation);
    var n := t.nodes[node];
    var input := plan.latencies[node].input;
    if n.origin.Track? {
      index :| n.contributionStart <= index < n.contributionEnd && t.intrinsic[index] == input;
    } else {
      index :| n.routeStart <= index < n.routeEnd && Arrivals(t, plan.latencies)[index] == input;
    }
  }
}
