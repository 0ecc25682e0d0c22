/** Which scratch slot every node of the schedule renders into. */
module Scratch {
  import opened Frames
  import opened Graph

  ghost predicate RoutesInside(routes: seq<Route>, nodes: nat) {
    forall r :: 0 <= r < |routes| ==> routes[r].source < nodes && routes[r].destination < nodes
  }

  /** `last` is the last node that reads the node, or the node itself. */
  ghost predicate IsLastConsumer(routes: seq<Route>, node: nat, last: nat) {
    && node <= last
    && (forall r :: 0 <= r < |routes| && routes[r].source == node ==> routes[r].destination <= last)
    && (last == node || exists r :: 0 <= r < |routes| && routes[r].source == node && routes[r].destination == last)
  }

  method LastConsumers(routes: seq<Route>, nodes: nat) returns (last: seq<nat>)
    requires RoutesInside(routes, nodes)
    ensures |last| == nodes
    ensures forall n :: 0 <= n < nodes ==> IsLastConsumer(routes, n, last[n])
  {
    last := seq(nodes, n => n);
    for r := 0 to |routes|
      invariant |last| == nodes
      invariant forall n :: 0 <= n < nodes ==> IsLastConsumer(routes[..r], n, last[n])
    {
      ghost var before := last;
      var route := routes[r];
      if last[route.source] < route.destination {
        last := last[route.source := route.destination];
      }
      forall n | 0 <= n < nodes
        ensures IsLastConsumer(routes[..r + 1], n, last[n])
      {
        assert IsLastConsumer(routes[..r], n, before[n]);
        ConsumerStep(routes[..r], route, n, before[n]);
        assert routes[..r + 1] == routes[..r] + [route];
      }
    }
    assert routes[..|routes|] == routes;
  }

  lemma ConsumerStep(routes: seq<Route>, route: Route, node: nat, last: nat)
    requires IsLastConsumer(routes, node, last)
    ensures IsLastConsumer(routes + [route], node, if route.source == node && last < route.destination then route.destination else last)
  {
    var more := routes + [route];
    assert more[|routes|] == route;
    if last != node {
      var r :| 0 <= r < |routes| && routes[r].source == node && routes[r].destination == last;
      assert more[r] == routes[r];
    }
  }

  // ------------------------------------------------------------------ first fit

  /** The first slot whose tenant nobody reads any more at `node`. */
  method Reusable(liveUntil: seq<nat>, node: nat) returns (slot: Option<nat>)
    ensures slot.Some? ==> slot.value < |liveUntil| && liveUntil[slot.value] < node
    ensures slot.Some? ==> forall s :: 0 <= s < slot.value ==> liveUntil[s] >= node
    ensures slot.None? ==> forall s :: 0 <= s < |liveUntil| ==> liveUntil[s] >= node
  {
    for s := 0 to |liveUntil|
      invariant forall t :: 0 <= t < s ==> liveUntil[t] >= node
    {
      if liveUntil[s] < node {
        return Some(s);
      }
    }
    slot := None;
  }

  /** Nodes whose PCM is alive while node `at` runs. */
  ghost function LiveAt(last: seq<nat>, at: nat): (live: set<nat>) {
    set n: nat | n < |last| && n <= at <= last[n]
  }

  /** No two nodes share a slot while both are alive. */
  ghost predicate NeverClash(last: seq<nat>, slots: seq<nat>)
    requires |slots| <= |last|
  {
    forall i, j :: 0 <= i < j < |slots| && slots[i] == slots[j] ==> last[i] < j
  }

  ghost predicate Within(slots: seq<nat>, count: nat) {
    forall i :: 0 <= i < |slots| ==> slots[i] < count
  }

  /** The greatest number of nodes alive at one point of the schedule. */
  ghost predicate IsPeak(last: seq<nat>, count: nat) {
    && (forall at: nat :: |LiveAt(last, at)| <= count)
    && (|last| == 0 ==> count == 0)
    && (|last| > 0 ==> exists at: nat :: at < |last| && |LiveAt(last, at)| == count)
  }

  /** Greedy reuse in node order: safe, and never more slots than the peak demands. */
  method AssignLivenessScratch(last: seq<nat>) returns (slots: seq<nat>, count: nat)
    requires forall n :: 0 <= n < |last| ==> last[n] >= n
    ensures |slots| == |last| && NeverClash(last, slots) && Within(slots, count)
    ensures IsPeak(last, count)
  {
    hide NeverClash, Tenants, LiveAt, Within, IsPeak;
    slots := [];
    var liveUntil: seq<nat> := [];
    NothingAssigned(last);
    ghost var tenant: seq<nat>, crowded: nat := [], 0;
    for n := 0 to |last|
      invariant |slots| == n && Within(slots, |liveUntil|) && NeverClash(last, slots)
      invariant |tenant| == |liveUntil| && Tenants(last, slots, liveUntil, tenant)
      invariant n > 0 ==> crowded < n && |LiveAt(last, crowded)| >= |liveUntil|
      invariant n == 0 ==> |liveUntil| == 0
    {
      var reusable := Reusable(liveUntil, n);
      if reusable.Some? {
        var slot := reusable.value;
        TakesOver(last, slots, liveUntil, tenant, slot);
        liveUntil, tenant := liveUntil[slot := last[n]], tenant[slot := n];
        slots := slots + [slot];
      } else {
        EveryTenantLives(last, slots, liveUntil, tenant, n);
        crowded := n;
        MovesIn(last, slots, liveUntil, tenant);
        slots := slots + [|liveUntil|];
        liveUntil, tenant := liveUntil + [last[n]], tenant + [n];
      }
    }
    count := |liveUntil|;
    PeakReached(last, slots, count, crowded);
  }

  lemma NothingAssigned(last: seq<nat>)
    ensures NeverClash(last, []) && Within([], 0) && Tenants(last, [], [], [])
  {}

  lemma PeakReached(last: seq<nat>, slots: seq<nat>, count: nat, crowded: nat)
    requires |slots| == |last| && NeverClash(last, slots) && Within(slots, count)
    requires |last| == 0 ==> count == 0
    requires |last| > 0 ==> crowded < |last| && |LiveAt(last, crowded)| >= count
    ensures IsPeak(last, count)
  {
    PeakBounds(last, slots, count);
    if |last| > 0 {
      assert |LiveAt(last, crowded)| == count;
    }
  }

  /** The latest node in every slot, and until when it is read. */
  ghost predicate Tenants(last: seq<nat>, slots: seq<nat>, liveUntil: seq<nat>, tenant: seq<nat>)
    requires |slots| <= |last| && |tenant| == |liveUntil|
  {
    && (forall s :: 0 <= s < |tenant| ==> tenant[s] < |slots| && slots[tenant[s]] == s && last[tenant[s]] == liveUntil[s])
    && (forall i :: 0 <= i < |slots| ==> slots[i] < |tenant| && i <= tenant[slots[i]])
  }

  lemma TakesOver(last: seq<nat>, slots: seq<nat>, liveUntil: seq<nat>, tenant: seq<nat>, slot: nat)
    requires |slots| < |last| && |tenant| == |liveUntil| && Tenants(last, slots, liveUntil, tenant)
    requires NeverClash(last, slots) && Within(slots, |liveUntil|)
    requires forall n :: 0 <= n < |last| ==> last[n] >= n
    requires slot < |liveUntil| && liveUntil[slot] < |slots|
    ensures var n := |slots|;
            && Tenants(last, slots + [slot], liveUntil[slot := last[n]], tenant[slot := n])
            && NeverClash(last, slots + [slot]) && Within(slots + [slot], |liveUntil|)
  {
    var n := |slots|;
    forall i | 0 <= i < n && slots[i] == slot
      ensures last[i] < n
    {
      assert i <= tenant[slot];
      assert i == tenant[slot] || last[i] < tenant[slot];
    }
  }

  lemma MovesIn(last: seq<nat>, slots: seq<nat>, liveUntil: seq<nat>, tenant: seq<nat>)
    requires |slots| < |last| && |tenant| == |liveUntil| && Tenants(last, slots, liveUntil, tenant)
    requires NeverClash(last, slots) && Within(slots, |liveUntil|)
    ensures var n := |slots|;
            && Tenants(last, slots + [|liveUntil|], liveUntil + [last[n]], tenant + [n])
            && NeverClash(last, slots + [|liveUntil|]) && Within(slots + [|liveUntil|], |liveUntil| + 1)
  {}

  /** When no slot is free, as many nodes are alive as there are slots, and the new one besides. */
  lemma EveryTenantLives(last: seq<nat>, slots: seq<nat>, liveUntil: seq<nat>, tenant: seq<nat>, n: nat)
    requires n == |slots| < |last| && |tenant| == |liveUntil| && Tenants(last, slots, liveUntil, tenant)
    requires forall s :: 0 <= s < |liveUntil| ==> liveUntil[s] >= n
    requires last[n] >= n
    ensures |LiveAt(last, n)| >= |liveUntil| + 1
  {
    TenantsAreDistinct(slots, tenant, |tenant|);
    var tenants := set s | 0 <= s < |tenant| :: tenant[s];
    assert n !in tenants;
    assert tenants + {n} <= LiveAt(last, n);
    SubsetIsSmaller(tenants + {n}, LiveAt(last, n));
  }

  lemma {:induction false} TenantsAreDistinct(slots: seq<nat>, tenant: seq<nat>, k: nat)
    requires k <= |tenant|
    requires forall s :: 0 <= s < |tenant| ==> tenant[s] < |slots| && slots[tenant[s]] == s
    ensures |set s | 0 <= s < k :: tenant[s]| == k
  {
    if k > 0 {
      TenantsAreDistinct(slots, tenant, k - 1);
      var before := set s | 0 <= s < k - 1 :: tenant[s];
      assert (set s | 0 <= s < k :: tenant[s]) == before + {tenant[k - 1]};
    }
  }

  lemma {:induction false} SubsetIsSmaller<T>(a: set<T>, b: set<T>)
    requires a <= b
    ensures |a| <= |b|
  {
    assert b == a + (b - a);
  }

  /** Nodes alive together need slots of their own. */
  lemma {:induction false} DistinctSlotsFit(slots: seq<nat>, nodes: set<nat>, count: nat)
    requires forall n :: n in nodes ==> n < |slots| && slots[n] < count
    requires forall n, m :: n in nodes && m in nodes && slots[n] == slots[m] ==> n == m
    ensures |nodes| <= count
    decreases count
  {
    if nodes != {} {
      var some :| some in nodes;
      assert slots[some] < count;
      if n :| n in nodes && slots[n] == count - 1 {
        DistinctSlotsFit(slots, nodes - {n}, count - 1);
      } else {
        DistinctSlotsFit(slots, nodes, count - 1);
      }
    }
  }

  /** Every assignment without clashes, not only this one, needs at least the peak. */
  lemma PeakBounds(last: seq<nat>, slots: seq<nat>, count: nat)
    requires |slots| == |last| && NeverClash(last, slots) && Within(slots, count)
    ensures forall at: nat :: |LiveAt(last, at)| <= count
  {
    forall at: nat
      ensures |LiveAt(last, at)| <= count
    {
      DistinctSlotsFit(slots, LiveAt(last, at), count);
    }
  }

  /** First fit is optimal: no safe assignment uses fewer slots. */
  lemma NoFewerSlots(last: seq<nat>, count: nat, other: seq<nat>, otherCount: nat)
    requires IsPeak(last, count)
    requires |other| == |last| && NeverClash(last, other) && Within(other, otherCount)
    ensures count <= otherCount
  {
    PeakBounds(last, other, otherCount);
  }

  /** What execution relies on: no node up to the last consumer of a source writes its slot. */
  lemma SourcesKeepTheirSlots(routes: seq<Route>, last: seq<nat>, slots: seq<nat>, r: nat, k: nat)
    requires RoutesInside(routes, |last|) && |slots| == |last| && NeverClash(last, slots)
    requires forall n :: 0 <= n < |last| ==> IsLastConsumer(routes, n, last[n])
    requires r < |routes| && routes[r].source < k <= routes[r].destination
    ensures slots[k] != slots[routes[r].source]
  {
    assert IsLastConsumer(routes, routes[r].source, last[routes[r].source]);
  }
}
