/** The two orders of the mixer graph: buses at compile time, all nodes at preparation. */
module Topology {
  import opened Frames
  import opened Graph

  datatype Edge = Edge(source: Origin, destination: Origin)

  /** The order in which sorted containers hold mixer nodes. */
  predicate Less(a: Origin, b: Origin) {
    match (a, b)
    case (Track(i), Track(j)) => i < j
    case (Track(_), _) => true
    case (Bus(_), Track(_)) => false
    case (Bus(i), Bus(j)) => i < j
    case (Bus(_), Output(_)) => true
    case (Output(i), Output(j)) => i < j
    case (Output(_), _) => false
  }

  /** Tracks come before buses and buses before outputs, each in the order of their numbers. */
  lemma LessIs(a: Origin, b: Origin)
    ensures a.Track? && !b.Track? ==> Less(a, b)
    ensures a.Bus? && b.Output? ==> Less(a, b)
    ensures a.Track? == b.Track? && a.Bus? == b.Bus? ==> (Less(a, b) <==> a.id < b.id)
    ensures Less(a, b) ==> a != b && !Less(b, a)
  {}

  predicate IsLeast(origin: Origin, origins: set<Origin>) {
    origin in origins && forall other :: other in origins ==> other == origin || Less(origin, other)
  }

  lemma {:induction false} HasLeast(origins: set<Origin>)
    requires origins != {}
    ensures exists origin :: IsLeast(origin, origins)
  {
    var some :| some in origins;
    if origins == {some} {
      assert IsLeast(some, origins);
    } else {
      HasLeast(origins - {some});
      var least :| IsLeast(least, origins - {some});
      var smaller := if Less(some, least) then some else least;
      forall other | other in origins
        ensures other == smaller || Less(smaller, other)
      {
        LessChains(some, least, other);
      }
      assert IsLeast(smaller, origins);
    }
  }

  lemma LessChains(a: Origin, b: Origin, c: Origin)
    ensures a == b || Less(a, b) || Less(b, a)
    ensures Less(a, b) && Less(b, c) ==> Less(a, c)
    ensures !(Less(a, b) && Less(b, a))
  {}

  method PopFirst(ready: set<Origin>) returns (first: Origin, rest: set<Origin>)
    requires ready != {}
    ensures IsLeast(first, ready) && rest == ready - {first}
  {
    HasLeast(ready);
    first :| IsLeast(first, ready);
    rest := ready - {first};
  }

  // ------------------------------------------------------------------ what an order is

  ghost predicate IsWalk(edges: set<Edge>, walk: seq<Origin>) {
    forall i :: 0 <= i < |walk| - 1 ==> Edge(walk[i], walk[i + 1]) in edges
  }

  /** Following the edges never comes back to where it started. */
  ghost predicate Acyclic(edges: set<Edge>) {
    !exists walk: seq<Origin> :: IsCycle(edges, walk)
  }

  ghost predicate IsCycle(edges: set<Edge>, walk: seq<Origin>) {
    |walk| > 1 && walk[0] == walk[|walk| - 1] && IsWalk(edges, walk)
  }

  ghost function Members(order: seq<Origin>): (members: set<Origin>) {
    set origin | origin in order
  }

  /** Everything that feeds the node was placed, the node was not. */
  ghost predicate Ready(edges: set<Edge>, nodes: set<Origin>, placed: set<Origin>, origin: Origin) {
    && origin in nodes && origin !in placed
    && forall edge :: edge in edges && edge.destination == origin ==> edge.source in placed
  }

  ghost predicate LeastReady(edges: set<Edge>, nodes: set<Origin>, placed: set<Origin>, origin: Origin) {
    && Ready(edges, nodes, placed, origin)
    && forall other :: Ready(edges, nodes, placed, other) ==> other == origin || Less(origin, other)
  }

  /** Every node was, when it was placed, the least one that could be placed. */
  ghost predicate Greedy(edges: set<Edge>, nodes: set<Origin>, order: seq<Origin>) {
    forall i :: 0 <= i < |order| ==> LeastReady(edges, nodes, Members(order[..i]), order[i])
  }

  /** A permutation of the nodes. */
  ghost predicate Permutes(order: seq<Origin>, nodes: set<Origin>) {
    && Members(order) == nodes
    && forall i, j :: 0 <= i < j < |order| ==> order[i] != order[j]
  }

  /** Every edge leads forward. */
  ghost predicate Forward(edges: set<Edge>, order: seq<Origin>) {
    forall i, j :: 0 <= i < |order| && 0 <= j < |order| && Edge(order[i], order[j]) in edges ==> i < j
  }

  lemma GreedyIsOrder(edges: set<Edge>, nodes: set<Origin>, order: seq<Origin>)
    requires Greedy(edges, nodes, order) && Members(order) == nodes
    ensures Permutes(order, nodes) && Forward(edges, order)
  {
    forall i, j | 0 <= i < j < |order|
      ensures order[i] != order[j]
    {
      assert order[..j][i] in Members(order[..j]);
      assert LeastReady(edges, nodes, Members(order[..j]), order[j]);
    }
    forall i, j | 0 <= i < |order| && 0 <= j < |order| && Edge(order[i], order[j]) in edges
      ensures i < j
    {
      assert LeastReady(edges, nodes, Members(order[..j]), order[j]);
      assert Edge(order[i], order[j]).source in Members(order[..j]);
    }
  }

  ghost predicate Closed(edges: set<Edge>, nodes: set<Origin>) {
    forall edge :: edge in edges ==> edge.source in nodes && edge.destination in nodes
  }

  /** A graph with a forward order has no cycle. */
  lemma OrderedIsAcyclic(edges: set<Edge>, nodes: set<Origin>, order: seq<Origin>)
    requires Closed(edges, nodes) && Permutes(order, nodes) && Forward(edges, order)
    ensures Acyclic(edges)
  {
    forall walk | IsCycle(edges, walk)
      ensures false
    {
      assert Edge(walk[0], walk[1]) in edges;
      assert walk[0] in Members(order);
      var from :| 0 <= from < |order| && order[from] == walk[0];
      WalksForward(edges, nodes, order, walk, |walk| - 1, from);
    }
  }

  lemma {:induction false} WalksForward(edges: set<Edge>, nodes: set<Origin>, order: seq<Origin>, walk: seq<Origin>, k: nat, from: nat)
    requires Closed(edges, nodes) && Permutes(order, nodes) && Forward(edges, order)
    requires 0 < k < |walk| && IsWalk(edges, walk) && from < |order| && order[from] == walk[0]
    ensures forall i :: 0 <= i < |order| && order[i] == walk[k] ==> from < i
    decreases k
  {
    assert Edge(walk[k - 1], walk[k]) in edges;
    assert walk[k - 1] in Members(order);
    var at :| 0 <= at < |order| && order[at] == walk[k - 1];
    if k > 1 {
      WalksForward(edges, nodes, order, walk, k - 1, from);
    }
  }

  ghost predicate FedFrom(edges: set<Edge>, left: set<Origin>, origin: Origin) {
    exists edge :: edge in edges && edge.destination == origin && edge.source in left
  }

  ghost predicate Distinct(walk: seq<Origin>) {
    forall i, j :: 0 <= i < j < |walk| ==> walk[i] != walk[j]
  }

  /** When every node left over is fed by a node left over, walking backwards must repeat itself. */
  lemma {:induction false} StuckIsCyclic(edges: set<Edge>, left: set<Origin>, walk: seq<Origin>)
    requires forall origin :: origin in left ==> FedFrom(edges, left, origin)
    requires |walk| > 0 && IsWalk(edges, walk) && Members(walk) <= left && Distinct(walk)
    ensures !Acyclic(edges)
    decreases |left| - |walk|
  {
    hide Acyclic, IsWalk, Distinct;
    DistinctFit(walk, left);
    assert walk[0] in Members(walk);
    assert FedFrom(edges, left, walk[0]);
    var edge :| edge in edges && edge.destination == walk[0] && edge.source in left;
    var longer := [edge.source] + walk;
    if k: nat :| k < |walk| && walk[k] == edge.source {
      ClosesCycle(edges, walk, edge.source, k);
    } else {
      WalkGrows(edges, left, walk, edge);
      DistinctFit(longer, left);
      StuckIsCyclic(edges, left, longer);
    }
  }

  lemma WalkGrows(edges: set<Edge>, left: set<Origin>, walk: seq<Origin>, edge: Edge)
    requires |walk| > 0 && IsWalk(edges, walk) && Members(walk) <= left && Distinct(walk)
    requires edge in edges && edge.destination == walk[0] && edge.source in left && edge.source !in walk
    ensures IsWalk(edges, [edge.source] + walk) && Members([edge.source] + walk) <= left && Distinct([edge.source] + walk)
  {}

  lemma ClosesCycle(edges: set<Edge>, walk: seq<Origin>, origin: Origin, k: nat)
    requires IsWalk(edges, walk) && k < |walk| && walk[k] == origin && Edge(origin, walk[0]) in edges
    ensures !Acyclic(edges)
  {
    var cycle := [origin] + walk[..k + 1];
    assert cycle[0] == cycle[|cycle| - 1];
    forall i | 0 <= i < |cycle| - 1
      ensures Edge(cycle[i], cycle[i + 1]) in edges
    {
      assert i == 0 || (cycle[i] == walk[i - 1] && cycle[i + 1] == walk[i]);
    }
    assert IsCycle(edges, cycle);
  }

  lemma {:induction false} DistinctFit(walk: seq<Origin>, left: set<Origin>)
    requires Members(walk) <= left && Distinct(walk)
    ensures |walk| <= |left|
    decreases |walk|
  {
    if |walk| > 0 {
      var last := walk[|walk| - 1];
      assert last in Members(walk);
      DistinctFit(walk[..|walk| - 1], left - {last});
    }
  }

  /** A loop that ran out of ready nodes before it placed all of them met a cycle. */
  lemma NothingReadyIsCyclic(edges: set<Edge>, nodes: set<Origin>, placed: set<Origin>)
    requires Closed(edges, nodes) && placed <= nodes && placed != nodes
    requires forall origin :: !Ready(edges, nodes, placed, origin)
    ensures !Acyclic(edges)
  {
    hide Acyclic;
    var some :| some in nodes && some !in placed;
    forall origin | origin in nodes - placed
      ensures FedFrom(edges, nodes - placed, origin)
    {
      assert !Ready(edges, nodes, placed, origin);
    }
    StuckIsCyclic(edges, nodes - placed, [some]);
  }

  /** The node that compares greatest and feeds nothing is placed last. */
  lemma OutputIsLast(edges: set<Edge>, nodes: set<Origin>, order: seq<Origin>, output: Origin)
    requires Greedy(edges, nodes, order) && Members(order) == nodes && output in nodes
    requires forall edge :: edge in edges ==> edge.source != output
    requires forall origin :: origin in nodes ==> origin == output || Less(origin, output)
    ensures |order| > 0 && order[|order| - 1] == output
  {
    assert output in Members(order);
    var i :| 0 <= i < |order| && order[i] == output;
    if i + 1 < |order| {
      GreedyIsOrder(edges, nodes, order);
      var next := order[i + 1];
      assert LeastReady(edges, nodes, Members(order[..i + 1]), next);
      assert order[..i + 1] == order[..i] + [output];
      assert Ready(edges, nodes, Members(order[..i]), next) by {
        assert next in Members(order);
        forall edge | edge in edges && edge.destination == next
          ensures edge.source in Members(order[..i])
        {
          assert edge.source in Members(order[..i + 1]);
        }
      }
      assert LeastReady(edges, nodes, Members(order[..i]), output);
      assert Less(next, output) && Less(output, next);
      LessChains(next, output, next);
    }
  }

  // ------------------------------------------------------------------ what both loops share

  ghost function ReadySet(edges: set<Edge>, nodes: set<Origin>, placed: set<Origin>): (ready: set<Origin>) {
    set origin | origin in nodes && Ready(edges, nodes, placed, origin)
  }

  /** Taking the least ready node keeps the order greedy. */
  lemma Places(edges: set<Edge>, nodes: set<Origin>, order: seq<Origin>, origin: Origin)
    requires Greedy(edges, nodes, order) && Members(order) <= nodes
    requires IsLeast(origin, ReadySet(edges, nodes, Members(order)))
    ensures Greedy(edges, nodes, order + [origin]) && Members(order + [origin]) == Members(order) + {origin} <= nodes
    ensures origin !in Members(order)
  {
    var longer := order + [origin];
    forall i | 0 <= i < |longer|
      ensures LeastReady(edges, nodes, Members(longer[..i]), longer[i])
    {
      if i < |order| {
        assert longer[..i] == order[..i];
        assert LeastReady(edges, nodes, Members(order[..i]), order[i]);
      } else {
        assert longer[..i] == order;
        forall other | Ready(edges, nodes, Members(order), other)
          ensures other == origin || Less(origin, other)
        {
          assert other in ReadySet(edges, nodes, Members(order));
        }
      }
    }
  }

  /** The loop stopped: either everything is placed in order, or there is a cycle. */
  lemma Decides(edges: set<Edge>, nodes: set<Origin>, order: seq<Origin>)
    requires Closed(edges, nodes) && Greedy(edges, nodes, order) && Members(order) <= nodes
    requires ReadySet(edges, nodes, Members(order)) == {}
    ensures Members(order) == nodes <==> |order| == |nodes|
    ensures Members(order) == nodes <==> Acyclic(edges)
  {
    hide Acyclic, Closed;
    forall i, j | 0 <= i < j < |order|
      ensures order[i] != order[j]
    {
      assert order[..j][i] in Members(order[..j]);
      assert LeastReady(edges, nodes, Members(order[..j]), order[j]);
    }
    CountsMembers(order);
    if Members(order) == nodes {
      GreedyIsOrder(edges, nodes, order);
      OrderedIsAcyclic(edges, nodes, order);
    } else {
      SmallerIsFewer(Members(order), nodes);
      forall origin
        ensures !Ready(edges, nodes, Members(order), origin)
      {
        assert origin !in ReadySet(edges, nodes, Members(order));
      }
      NothingReadyIsCyclic(edges, nodes, Members(order));
    }
  }

  lemma {:induction false} CountsMembers(order: seq<Origin>)
    requires Distinct(order)
    ensures |Members(order)| == |order|
    decreases |order|
  {
    if |order| > 0 {
      var head, last := order[..|order| - 1], order[|order| - 1];
      CountsMembers(head);
      assert order == head + [last];
      assert Members(order) == Members(head) + {last};
    }
  }

  lemma SmallerIsFewer(a: set<Origin>, b: set<Origin>)
    requires a <= b && a != b
    ensures |a| < |b|
  {
    assert b == a + (b - a);
    var some :| some in b && some !in a;
    assert some in b - a;
  }

  // ------------------------------------------------------------------ all nodes, with sidechains

  /** A sidechain Route into a processor that the nodes `targets` own. */
  datatype Sidechain = Sidechain(source: Origin, targets: set<Origin>)

  datatype OrderError = OutsideClosure | ProcessorOutsideClosure | InstantaneousCycle

  datatype NodeOrder = Ordered(order: seq<Origin>) | Refused(error: OrderError)

  /** The edges of the first `k` sidechain Routes. */
  ghost function SidechainEdges(sidechains: seq<Sidechain>, k: nat): (edges: set<Edge>)
    requires k <= |sidechains|
  {
    set i, target | 0 <= i < k && target in sidechains[i].targets :: Edge(sidechains[i].source, target)
  }

  ghost function EdgesOf(routes: seq<Edge>): (edges: set<Edge>) {
    set edge | edge in routes
  }

  ghost function NodeEdges(routes: seq<Edge>, sidechains: seq<Sidechain>): (edges: set<Edge>) {
    EdgesOf(routes) + SidechainEdges(sidechains, |sidechains|)
  }

  /** Edges that leave a set of placed nodes behind, into one node. */
  ghost function Feeding(edges: set<Edge>, placed: set<Origin>, origin: Origin): (feeding: set<Edge>) {
    set edge | edge in edges && edge.destination == origin && edge.source !in placed
  }

  ghost predicate Counted(edges: set<Edge>, nodes: set<Origin>, outgoing: map<Origin, set<Origin>>, indegree: map<Origin, nat>) {
    && Closed(edges, nodes) && outgoing.Keys == nodes && indegree.Keys == nodes
    && (forall source, target :: source in nodes ==> (target in outgoing[source] <==> Edge(source, target) in edges))
    && (forall origin :: origin in nodes ==> indegree[origin] == |Feeding(edges, {}, origin)|)
  }

  /** Parallel Routes count once. */
  method AddEdge(nodes: set<Origin>, edge: Edge, outgoing: map<Origin, set<Origin>>, indegree: map<Origin, nat>, ghost edges: set<Edge>)
    returns (ok: bool, outgoing': map<Origin, set<Origin>>, indegree': map<Origin, nat>)
    requires Counted(edges, nodes, outgoing, indegree)
    ensures ok <==> edge.source in nodes && edge.destination in nodes
    ensures ok ==> Counted(edges + {edge}, nodes, outgoing', indegree')
  {
    hide Feeding;
    outgoing', indegree' := outgoing, indegree;
    if edge.source !in nodes || edge.destination !in nodes {
      return false, outgoing', indegree';
    }
    ok := true;
    if edge.destination in outgoing[edge.source] {
      assert edges + {edge} == edges;
    } else {
      outgoing' := outgoing[edge.source := outgoing[edge.source] + {edge.destination}];
      indegree' := indegree[edge.destination := indegree[edge.destination] + 1];
      forall origin | origin in nodes
        ensures indegree'[origin] == |Feeding(edges + {edge}, {}, origin)|
      {
        FeedingGrows(edges, edge, origin);
      }
    }
  }

  lemma FeedingGrows(edges: set<Edge>, edge: Edge, origin: Origin)
    requires edge !in edges
    ensures |Feeding(edges + {edge}, {}, origin)| == |Feeding(edges, {}, origin)| + (if origin == edge.destination then 1 else 0)
  {
    if origin == edge.destination {
      assert Feeding(edges + {edge}, {}, origin) == Feeding(edges, {}, origin) + {edge};
    } else {
      assert Feeding(edges + {edge}, {}, origin) == Feeding(edges, {}, origin);
    }
  }

  lemma FeedingShrinks(edges: set<Edge>, placed: set<Origin>, source: Origin, origin: Origin)
    requires source !in placed
    ensures |Feeding(edges, placed, origin)| == |Feeding(edges, placed + {source}, origin)| + (if Edge(source, origin) in edges then 1 else 0)
  {
    var before, after := Feeding(edges, placed, origin), Feeding(edges, placed + {source}, origin);
    if Edge(source, origin) in edges {
      assert before == after + {Edge(source, origin)};
    } else {
      assert before == after;
    }
  }

  /** `pending` targets of the node placed last still have to be counted down. */
  ghost predicate CountsDown(edges: set<Edge>, nodes: set<Origin>, placed: set<Origin>, pending: set<Origin>, indegree: map<Origin, nat>, ready: set<Origin>) {
    && indegree.Keys == nodes && pending <= nodes
    && (forall origin :: origin in nodes ==>
          indegree[origin] == |Feeding(edges, placed, origin)| + if origin in pending then 1 else 0)
    && ready == set origin | origin in nodes && origin !in placed && indegree[origin] == 0
  }

  lemma CountedDownIsReady(edges: set<Edge>, nodes: set<Origin>, placed: set<Origin>, indegree: map<Origin, nat>, ready: set<Origin>)
    requires CountsDown(edges, nodes, placed, {}, indegree, ready)
    ensures ready == ReadySet(edges, nodes, placed)
  {
    forall origin | origin in nodes && origin !in placed
      ensures indegree[origin] == 0 <==> Ready(edges, nodes, placed, origin)
    {
      var feeding := Feeding(edges, placed, origin);
      assert feeding == {} <==> |feeding| == 0;
      if feeding == {} {
        forall edge | edge in edges && edge.destination == origin
          ensures edge.source in placed
        {
          assert edge !in feeding;
        }
      } else {
        var edge :| edge in feeding;
      }
    }
  }

  lemma PlacedBeginsCountdown(edges: set<Edge>, nodes: set<Origin>, placed: set<Origin>, indegree: map<Origin, nat>, ready: set<Origin>, origin: Origin, targets: set<Origin>)
    requires CountsDown(edges, nodes, placed, {}, indegree, ready) && origin in ready
    requires Closed(edges, nodes) && forall target :: target in targets <==> Edge(origin, target) in edges
    ensures CountsDown(edges, nodes, placed + {origin}, targets, indegree, ready - {origin})
  {
    forall target | target in targets
      ensures target in nodes
    {
      assert Edge(origin, target) in edges;
    }
    forall other | other in nodes
      ensures indegree[other] == |Feeding(edges, placed + {origin}, other)| + if other in targets then 1 else 0
    {
      FeedingShrinks(edges, placed, origin, other);
    }
  }

  /** Count the targets of the node just placed down; the counter is never already zero. */
  method CountDown(nodes: set<Origin>, targets: set<Origin>, indegree: map<Origin, nat>, ready: set<Origin>, ghost edges: set<Edge>, ghost placed: set<Origin>)
    returns (indegree': map<Origin, nat>, ready': set<Origin>)
    requires CountsDown(edges, nodes, placed, targets, indegree, ready)
    requires forall target :: target in targets ==> target !in placed
    ensures CountsDown(edges, nodes, placed, {}, indegree', ready')
  {
    var pending := targets;
    indegree', ready' := indegree, ready;
    while pending != {}
      invariant CountsDown(edges, nodes, placed, pending, indegree', ready')
      invariant pending <= targets
    {
      var target;
      target, pending := PopFirst(pending);
      var degree: nat := indegree'[target] - 1;
      indegree' := indegree'[target := degree];
      if degree == 0 {
        ready' := ready' + {target};
      }
    }
  }

  /** Nothing that the node placed last feeds was placed before it. */
  lemma TargetsUnplaced(edges: set<Edge>, nodes: set<Origin>, order: seq<Origin>, origin: Origin, target: Origin)
    requires Greedy(edges, nodes, order + [origin]) && origin !in Members(order)
    requires Edge(origin, target) in edges
    ensures target !in Members(order + [origin])
  {
    var longer := order + [origin];
    forall i | 0 <= i < |longer|
      ensures longer[i] != target
    {
      assert LeastReady(edges, nodes, Members(longer[..i]), longer[i]);
      assert longer[..i] <= order;
    }
  }

  /** Kahn's algorithm over a counted graph. */
  method OrderCounted(nodes: set<Origin>, outgoing: map<Origin, set<Origin>>, indegree: map<Origin, nat>, ghost edges: set<Edge>)
    returns (order: seq<Origin>)
    requires Counted(edges, nodes, outgoing, indegree)
    ensures Greedy(edges, nodes, order) && Members(order) <= nodes
    ensures ReadySet(edges, nodes, Members(order)) == {}
  {
    hide Greedy, ReadySet, Feeding;
    var degrees := indegree;
    var ready := set origin | origin in nodes && degrees[origin] == 0;
    order := [];
    NothingPlaced(edges, nodes);
    assert Members(order) == {};
    while ready != {}
      invariant Greedy(edges, nodes, order) && Members(order) <= nodes
      invariant CountsDown(edges, nodes, Members(order), {}, degrees, ready)
      decreases nodes - Members(order)
    {
      ghost var before := ready;
      CountedDownIsReady(edges, nodes, Members(order), degrees, ready);
      var origin;
      origin, ready := PopFirst(ready);
      Places(edges, nodes, order, origin);
      PlacedBeginsCountdown(edges, nodes, Members(order), degrees, before, origin, outgoing[origin]);
      forall target | target in outgoing[origin]
        ensures target !in Members(order + [origin])
      {
        TargetsUnplaced(edges, nodes, order, origin, target);
      }
      order := order + [origin];
      degrees, ready := CountDown(nodes, outgoing[origin], degrees, ready, edges, Members(order));
    }
    CountedDownIsReady(edges, nodes, Members(order), degrees, ready);
  }

  lemma NothingPlaced(edges: set<Edge>, nodes: set<Origin>)
    ensures Greedy(edges, nodes, []) && Members([]) == {}
  {}

  ghost predicate EndpointsExist(nodes: set<Origin>, routes: seq<Edge>, sidechains: seq<Sidechain>) {
    && (forall edge :: edge in routes ==> edge.source in nodes && edge.destination in nodes)
    && (forall i :: 0 <= i < |sidechains| ==> SidechainExists(nodes, sidechains[i]))
  }

  ghost predicate SidechainExists(nodes: set<Origin>, sidechain: Sidechain) {
    sidechain.targets != {} && sidechain.source in nodes && sidechain.targets <= nodes
  }

  /** The order of all nodes over main and sidechain Routes. */
  method PreparedNodeOrder(nodes: set<Origin>, routes: seq<Edge>, sidechains: seq<Sidechain>) returns (result: NodeOrder)
    ensures result.Ordered? <==> EndpointsExist(nodes, routes, sidechains) && Acyclic(NodeEdges(routes, sidechains))
    ensures result.Ordered? ==> Permutes(result.order, nodes) && Greedy(NodeEdges(routes, sidechains), nodes, result.order)
    ensures result == Refused(InstantaneousCycle) <==>
              EndpointsExist(nodes, routes, sidechains) && !Acyclic(NodeEdges(routes, sidechains))
    ensures (exists edge :: edge in routes && !(edge.source in nodes && edge.destination in nodes)) ==> result == Refused(OutsideClosure)
    ensures (forall edge :: edge in routes ==> edge.source in nodes && edge.destination in nodes) && !EndpointsExist(nodes, routes, sidechains) ==>
              result.Refused? && MissingFirst(nodes, sidechains, result.error)
  {
    hide Acyclic, MissingFirst, Greedy, ReadySet, Counted, SidechainEdges, SidechainExists, Forward;
    var ok, outgoing, indegree := AddRoutes(nodes, routes);
    if !ok {
      return Refused(OutsideClosure);
    }
    var error;
    error, outgoing, indegree := AddSidechains(nodes, sidechains, outgoing, indegree, EdgesOf(routes));
    if error.Some? {
      return Refused(error.value);
    }
    ghost var edges := NodeEdges(routes, sidechains);
    CountedIsClosed(edges, nodes, outgoing, indegree);
    var order := OrderCounted(nodes, outgoing, indegree, edges);
    Decides(edges, nodes, order);
    if |order| != |nodes| {
      return Refused(InstantaneousCycle);
    }
    GreedyIsOrder(edges, nodes, order);
    return Ordered(order);
  }

  lemma CountedIsClosed(edges: set<Edge>, nodes: set<Origin>, outgoing: map<Origin, set<Origin>>, indegree: map<Origin, nat>)
    requires Counted(edges, nodes, outgoing, indegree)
    ensures Closed(edges, nodes)
  {}

  method AddRoutes(nodes: set<Origin>, routes: seq<Edge>) returns (ok: bool, outgoing: map<Origin, set<Origin>>, indegree: map<Origin, nat>)
    ensures ok <==> forall edge :: edge in routes ==> edge.source in nodes && edge.destination in nodes
    ensures ok ==> Counted(EdgesOf(routes), nodes, outgoing, indegree)
  {
    hide Counted;
    outgoing := map origin | origin in nodes :: {};
    indegree := map origin | origin in nodes :: 0;
    NothingFeeds(nodes);
    ghost var edges: set<Edge> := {};
    for i := 0 to |routes|
      invariant Counted(edges, nodes, outgoing, indegree)
      invariant edges == EdgesOf(routes[..i])
      invariant forall edge :: edge in routes[..i] ==> edge.source in nodes && edge.destination in nodes
    {
      ok, outgoing, indegree := AddEdge(nodes, routes[i], outgoing, indegree, edges);
      if !ok {
        return;
      }
      edges := edges + {routes[i]};
    }
    assert routes[..|routes|] == routes;
    ok := true;
  }

  lemma NothingFeeds(nodes: set<Origin>)
    ensures Counted({}, nodes, map origin | origin in nodes :: {}, map origin | origin in nodes :: 0)
  {
    forall origin | origin in nodes
      ensures |Feeding({}, {}, origin)| == 0
    {
      assert Feeding({}, {}, origin) == {};
    }
  }

  /** The first sidechain that does not exist has no target at all, or a target or source outside the nodes. */
  ghost predicate MissingFirst(nodes: set<Origin>, sidechains: seq<Sidechain>, error: OrderError) {
    exists i ::
      && 0 <= i < |sidechains| && !SidechainExists(nodes, sidechains[i])
      && (forall j :: 0 <= j < i ==> SidechainExists(nodes, sidechains[j]))
      && error == if sidechains[i].targets == {} then ProcessorOutsideClosure else OutsideClosure
  }

  method AddSidechains(nodes: set<Origin>, sidechains: seq<Sidechain>, before: map<Origin, set<Origin>>, degrees: map<Origin, nat>, ghost edges: set<Edge>)
    returns (error: Option<OrderError>, outgoing: map<Origin, set<Origin>>, indegree: map<Origin, nat>)
    requires Counted(edges, nodes, before, degrees)
    ensures error.None? <==> forall i :: 0 <= i < |sidechains| ==> SidechainExists(nodes, sidechains[i])
    ensures error.Some? ==> error.value != InstantaneousCycle && MissingFirst(nodes, sidechains, error.value)
    ensures error.None? ==> Counted(edges + SidechainEdges(sidechains, |sidechains|), nodes, outgoing, indegree)
  {
    hide Counted;
    outgoing, indegree := before, degrees;
    assert edges + SidechainEdges(sidechains, 0) == edges;
    for i := 0 to |sidechains|
      invariant forall j :: 0 <= j < i ==> SidechainExists(nodes, sidechains[j])
      invariant Counted(edges + SidechainEdges(sidechains, i), nodes, outgoing, indegree)
    {
      if sidechains[i].targets == {} {
        return Some(ProcessorOutsideClosure), outgoing, indegree;
      }
      var ok;
      ok, outgoing, indegree := AddTargets(nodes, sidechains[i], outgoing, indegree, edges + SidechainEdges(sidechains, i));
      if !ok {
        return Some(OutsideClosure), outgoing, indegree;
      }
      assert edges + SidechainEdges(sidechains, i) + (set target | target in sidechains[i].targets :: Edge(sidechains[i].source, target))
          == edges + SidechainEdges(sidechains, i + 1);
    }
    error := None;
  }

  method AddTargets(nodes: set<Origin>, sidechain: Sidechain, before: map<Origin, set<Origin>>, degrees: map<Origin, nat>, ghost edges: set<Edge>)
    returns (ok: bool, outgoing: map<Origin, set<Origin>>, indegree: map<Origin, nat>)
    requires Counted(edges, nodes, before, degrees) && sidechain.targets != {}
    ensures ok <==> SidechainExists(nodes, sidechain)
    ensures ok ==> Counted(edges + (set target | target in sidechain.targets :: Edge(sidechain.source, target)), nodes, outgoing, indegree)
  {
    hide Counted;
    outgoing, indegree := before, degrees;
    var pending := sidechain.targets;
    ghost var added: set<Edge> := {};
    assert edges + added == edges;
    while pending != {}
      invariant pending <= sidechain.targets
      invariant added == set target | target in sidechain.targets - pending :: Edge(sidechain.source, target)
      invariant Counted(edges + added, nodes, outgoing, indegree)
      invariant pending != sidechain.targets ==> sidechain.source in nodes
      invariant sidechain.targets - pending <= nodes
    {
      var target;
      target, pending := PopFirst(pending);
      ok, outgoing, indegree := AddEdge(nodes, Edge(sidechain.source, target), outgoing, indegree, edges + added);
      if !ok {
        return;
      }
      assert edges + added + {Edge(sidechain.source, target)} == edges + (added + {Edge(sidechain.source, target)});
      added := added + {Edge(sidechain.source, target)};
    }
    assert sidechain.targets - pending == sidechain.targets;
    ok := true;
  }

  /** Preparation after the order was found: no edge is refused as non-causal, and the output
      node, which feeds nothing, comes last, so nothing overwrites its PCM before it is copied out. */
  lemma CausalityChecksNeverFire(nodes: set<Origin>, routes: seq<Edge>, sidechains: seq<Sidechain>, order: seq<Origin>, output: Origin)
    requires EndpointsExist(nodes, routes, sidechains)
    requires Permutes(order, nodes) && Greedy(NodeEdges(routes, sidechains), nodes, order)
    requires output.Output? && output in nodes && forall origin :: origin in nodes && origin.Output? ==> origin == output
    requires forall edge :: edge in routes ==> !edge.source.Output?
    requires forall i :: 0 <= i < |sidechains| ==> !sidechains[i].source.Output?
    ensures order[|order| - 1] == output
    ensures Forward(EdgesOf(routes), order) && Forward(SidechainEdges(sidechains, |sidechains|), order)
  {
    var edges := NodeEdges(routes, sidechains);
    GreedyIsOrder(edges, nodes, order);
    OutputIsLast(edges, nodes, order, output);
  }

  // ------------------------------------------------------------------ buses only

  /** How many of the first `k` Routes lead from a bus of the closure that is not placed into `bus`. */
  ghost function Incoming(routes: seq<Edge>, k: nat, buses: set<Origin>, placed: set<Origin>, bus: Origin): nat
    requires k <= |routes|
  {
    if k == 0 then 0 else
    Incoming(routes, k - 1, buses, placed, bus) +
    (if Feeds(routes[k - 1], buses, bus) && routes[k - 1].source !in placed then 1 else 0)
  }

  predicate Feeds(route: Edge, buses: set<Origin>, bus: Origin) {
    route.source in buses && route.destination == bus
  }

  lemma {:induction false} IncomingGrows(routes: seq<Edge>, i: nat, k: nat, buses: set<Origin>, placed: set<Origin>, bus: Origin)
    requires i <= k <= |routes|
    ensures Incoming(routes, i, buses, placed, bus) <= Incoming(routes, k, buses, placed, bus)
    decreases k
  {
    if i < k {
      IncomingGrows(routes, i, k - 1, buses, placed, bus);
    }
  }

  ghost function BusEdges(routes: seq<Edge>, buses: set<Origin>): (edges: set<Edge>) {
    set edge | edge in routes && edge.source in buses && edge.destination in buses
  }

  /** A bus has no incoming Route left exactly when every bus that feeds it was placed. */
  lemma {:induction false} NoneIncoming(routes: seq<Edge>, k: nat, buses: set<Origin>, placed: set<Origin>, bus: Origin)
    requires k <= |routes|
    ensures Incoming(routes, k, buses, placed, bus) == 0 <==>
              forall i :: 0 <= i < k && Feeds(routes[i], buses, bus) ==> routes[i].source in placed
    decreases k
  {
    if k > 0 {
      NoneIncoming(routes, k - 1, buses, placed, bus);
    }
  }

  /** Incoming Routes of `other` when those before `i` were already counted with `bus` placed. */
  ghost function Remaining(routes: seq<Edge>, i: nat, buses: set<Origin>, placed: set<Origin>, bus: Origin, other: Origin): int
    requires i <= |routes|
  {
    Incoming(routes, i, buses, placed + {bus}, other)
    + Incoming(routes, |routes|, buses, placed, other) - Incoming(routes, i, buses, placed, other)
  }

  lemma RemainingStep(routes: seq<Edge>, i: nat, buses: set<Origin>, placed: set<Origin>, bus: Origin, other: Origin)
    requires i < |routes| && bus in buses && bus !in placed
    ensures Remaining(routes, i + 1, buses, placed, bus, other)
            == Remaining(routes, i, buses, placed, bus, other) - if routes[i].source == bus && routes[i].destination == other then 1 else 0
    ensures Remaining(routes, i + 1, buses, placed, bus, other) >= 0
  {
    IncomingGrows(routes, i + 1, |routes|, buses, placed, other);
  }

  ghost predicate BusesCounted(routes: seq<Edge>, i: nat, buses: set<Origin>, placed: set<Origin>, bus: Origin, indegree: map<Origin, nat>, ready: set<Origin>)
    requires i <= |routes|
  {
    && indegree.Keys == buses
    && (forall other :: other in buses ==> indegree[other] == Remaining(routes, i, buses, placed, bus, other))
    && ready == set other | other in buses && other !in placed && other != bus && indegree[other] == 0
  }

  /** Parallel Routes count separately, and every one of them is counted down separately. */
  method CountDownRoutes(routes: seq<Edge>, buses: set<Origin>, bus: Origin, indegree: map<Origin, nat>, ready: set<Origin>, ghost placed: set<Origin>)
    returns (indegree': map<Origin, nat>, ready': set<Origin>)
    requires bus in buses && bus !in placed
    requires forall edge :: edge in BusEdges(routes, buses) && edge.source == bus ==> edge.destination !in placed + {bus}
    requires BusesCounted(routes, 0, buses, placed, bus, indegree, ready)
    ensures BusesCounted(routes, |routes|, buses, placed, bus, indegree', ready')
  {
    hide Remaining;
    indegree', ready' := indegree, ready;
    for i := 0 to |routes|
      invariant BusesCounted(routes, i, buses, placed, bus, indegree', ready')
    {
      var destination := routes[i].destination;
      forall other | other in buses
        ensures Remaining(routes, i + 1, buses, placed, bus, other) >= 0
        ensures Remaining(routes, i + 1, buses, placed, bus, other)
                == Remaining(routes, i, buses, placed, bus, other) - if routes[i].source == bus && destination == other then 1 else 0
      {
        RemainingStep(routes, i, buses, placed, bus, other);
      }
      if routes[i].source == bus && destination in buses {
        assert routes[i] in BusEdges(routes, buses);
        var value: nat := indegree'[destination] - 1;
        indegree' := indegree'[destination := value];
        if value == 0 {
          ready' := ready' + {destination};
        }
      }
    }
  }

  ghost predicate IncomingCounted(routes: seq<Edge>, buses: set<Origin>, placed: set<Origin>, indegree: map<Origin, nat>, ready: set<Origin>) {
    && indegree.Keys == buses
    && (forall other :: other in buses ==> indegree[other] == Incoming(routes, |routes|, buses, placed, other))
    && ready == set other | other in buses && other !in placed && indegree[other] == 0
  }

  lemma IncomingCountedIsReady(routes: seq<Edge>, buses: set<Origin>, placed: set<Origin>, indegree: map<Origin, nat>, ready: set<Origin>)
    requires IncomingCounted(routes, buses, placed, indegree, ready)
    ensures ready == ReadySet(BusEdges(routes, buses), buses, placed)
  {
    forall other | other in buses && other !in placed
      ensures indegree[other] == 0 <==> Ready(BusEdges(routes, buses), buses, placed, other)
    {
      NoneIncoming(routes, |routes|, buses, placed, other);
      if indegree[other] == 0 {
        forall edge | edge in BusEdges(routes, buses) && edge.destination == other
          ensures edge.source in placed
        {
          var i :| 0 <= i < |routes| && routes[i] == edge;
        }
      } else {
        var i :| 0 <= i < |routes| && Feeds(routes[i], buses, other) && routes[i].source !in placed;
        assert routes[i] in BusEdges(routes, buses);
      }
    }
  }

  lemma CountedDown(routes: seq<Edge>, buses: set<Origin>, placed: set<Origin>, bus: Origin, indegree: map<Origin, nat>, ready: set<Origin>)
    requires BusesCounted(routes, |routes|, buses, placed, bus, indegree, ready)
    ensures IncomingCounted(routes, buses, placed + {bus}, indegree, ready)
  {}

  lemma BeginsCountdown(routes: seq<Edge>, buses: set<Origin>, placed: set<Origin>, bus: Origin, indegree: map<Origin, nat>, ready: set<Origin>)
    requires IncomingCounted(routes, buses, placed, indegree, ready) && bus in ready
    ensures BusesCounted(routes, 0, buses, placed, bus, indegree, ready - {bus})
  {}

  method CountRoutes(routes: seq<Edge>, buses: set<Origin>) returns (indegree: map<Origin, nat>)
    ensures indegree.Keys == buses
    ensures forall other :: other in buses ==> indegree[other] == Incoming(routes, |routes|, buses, {}, other)
  {
    indegree := map bus | bus in buses :: 0;
    for i := 0 to |routes|
      invariant indegree.Keys == buses
      invariant forall other :: other in buses ==> indegree[other] == Incoming(routes, i, buses, {}, other)
    {
      var destination := routes[i].destination;
      if routes[i].source in buses && destination in buses {
        indegree := indegree[destination := indegree[destination] + 1];
      }
    }
  }

  /** The order of the buses of a signal closure over the selected Routes. */
  method TopologicalBusOrder(routes: seq<Edge>, buses: set<Origin>) returns (order: Option<seq<Origin>>)
    ensures order.Some? <==> Acyclic(BusEdges(routes, buses))
    ensures order.Some? ==> Permutes(order.value, buses) && Forward(BusEdges(routes, buses), order.value)
    ensures order.Some? ==> Greedy(BusEdges(routes, buses), buses, order.value)
  {
    hide Acyclic, Greedy, ReadySet, Incoming, Remaining, BusesCounted, IncomingCounted;
    ghost var edges := BusEdges(routes, buses);
    var indegree := CountRoutes(routes, buses);
    var ready := set bus | bus in buses && indegree[bus] == 0;
    var placed: seq<Origin> := [];
    NothingPlaced(edges, buses);
    CountsEverything(routes, buses, indegree, ready);
    while ready != {}
      invariant Greedy(edges, buses, placed) && Members(placed) <= buses
      invariant IncomingCounted(routes, buses, Members(placed), indegree, ready)
      decreases buses - Members(placed)
    {
      ghost var before := ready;
      IncomingCountedIsReady(routes, buses, Members(placed), indegree, ready);
      var bus;
      bus, ready := PopFirst(ready);
      Places(edges, buses, placed, bus);
      forall edge | edge in edges && edge.source == bus
        ensures edge.destination !in Members(placed + [bus])
      {
        TargetsUnplaced(edges, buses, placed, bus, edge.destination);
      }
      BeginsCountdown(routes, buses, Members(placed), bus, indegree, before);
      indegree, ready := CountDownRoutes(routes, buses, bus, indegree, ready, Members(placed));
      CountedDown(routes, buses, Members(placed), bus, indegree, ready);
      placed := placed + [bus];
    }
    IncomingCountedIsReady(routes, buses, Members(placed), indegree, ready);
    Decides(edges, buses, placed);
    if |placed| != |buses| {
      return None;
    }
    GreedyIsOrder(edges, buses, placed);
    return Some(placed);
  }

  lemma CountsEverything(routes: seq<Edge>, buses: set<Origin>, indegree: map<Origin, nat>, ready: set<Origin>)
    requires indegree.Keys == buses
    requires forall other :: other in buses ==> indegree[other] == Incoming(routes, |routes|, buses, {}, other)
    requires ready == set bus | bus in buses && indegree[bus] == 0
    ensures IncomingCounted(routes, buses, {}, indegree, ready)
  {}
}
