/** A program laid out in the prepared node order: the checks of preparation that look for a Route or
    sidechain leading backwards can never fire. */
module Ordering {
  import opened Graph
  import opened Preparation
  import Topology

  /** The strips stand in the given order, and every Route and sidechain of the program is one of the mixer. */
  ghost predicate LaidOut<S(!new)>(p: Program<S>, order: seq<Origin>, routes: seq<Topology.Edge>, sidechains: seq<Topology.Sidechain>) {
    && |p.strips| == |order| && (forall n :: 0 <= n < |order| ==> p.strips[n].origin == order[n])
    && (forall r :: 0 <= r < |p.routes| ==> RouteLaidOut(p.routes[r], order, routes))
    && (forall n, behind, j :: 0 <= n < |p.strips| && 0 <= j < |p.strips[n].RackAt(behind)| ==>
          SidechainsLaidOut(p.strips[n].RackAt(behind)[j].sidechains, n, order, sidechains))
  }

  ghost predicate RouteLaidOut(route: PlannedRoute, order: seq<Origin>, routes: seq<Topology.Edge>) {
    route.source < |order| && route.destination < |order| && Topology.Edge(order[route.source], order[route.destination]) in routes
  }

  ghost predicate SidechainsLaidOut(planned: seq<SidechainRoute>, n: nat, order: seq<Origin>, sidechains: seq<Topology.Sidechain>)
    requires n < |order|
  {
    forall b :: 0 <= b < |planned| ==> planned[b].source < |order| && Targets(sidechains, order[planned[b].source], order[n])
  }

  ghost predicate Targets(sidechains: seq<Topology.Sidechain>, source: Origin, target: Origin) {
    exists i :: 0 <= i < |sidechains| && sidechains[i].source == source && target in sidechains[i].targets
  }

  /** In the order that preparation found, every Route and every sidechain leads forward. */
  lemma OrderLeadsForward<S(!new)>(p: Program<S>, nodes: set<Origin>, order: seq<Origin>, routes: seq<Topology.Edge>, sidechains: seq<Topology.Sidechain>)
    requires Topology.Permutes(order, nodes) && Topology.Greedy(Topology.NodeEdges(routes, sidechains), nodes, order)
    requires LaidOut(p, order, routes, sidechains)
    ensures LeadsForward(p) && SidechainsLeadForward(p)
  {
    var edges := Topology.NodeEdges(routes, sidechains);
    Topology.GreedyIsOrder(edges, nodes, order);
    forall r | 0 <= r < |p.routes|
      ensures p.routes[r].source < p.routes[r].destination
    {
      assert RouteLaidOut(p.routes[r], order, routes);
      assert Topology.Edge(order[p.routes[r].source], order[p.routes[r].destination]) in edges;
    }
    forall n, behind, j | 0 <= n < |p.strips| && 0 <= j < |p.strips[n].RackAt(behind)|
      ensures LeadBefore(p.strips[n].RackAt(behind)[j].sidechains, n)
    {
      var planned := p.strips[n].RackAt(behind)[j].sidechains;
      assert SidechainsLaidOut(planned, n, order, sidechains);
      forall b | 0 <= b < |planned|
        ensures planned[b].source < n
      {
        assert Targets(sidechains, order[planned[b].source], order[n]);
        assert Topology.Edge(order[planned[b].source], order[n]) in edges;
      }
    }
  }
}
