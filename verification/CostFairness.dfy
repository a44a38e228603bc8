/** What the split of a node's cost means: charges follow the requested fractions of the capacities, in any unit. */
module CostFairness {
  import opened Wrappers
  import opened Totals
  import opened Cluster
  import opened CostAllocation

  // ---- Charges in terms of requests and capacities --------------------------

  function CpuRequest(p: Pod): nat { SumBy(CpuOf, p.containers) }

  function MemoryRequest(p: Pod): nat { SumBy(MemoryOf, p.containers) }

  /** The two requests brought to a common denominator; a resource without capacity does not count. */
  function Demand(p: Pod, n: CostedNode): real {
    var cpu, memory := CpuRequest(p) as real, MemoryRequest(p) as real;
    if n.cpuCapacity > 0 && n.memoryCapacity > 0 then
      cpu * n.memoryCapacity as real + memory * n.cpuCapacity as real
    else if n.cpuCapacity > 0 then cpu
    else if n.memoryCapacity > 0 then memory
    else 0.0
  }

  function RealSum(f: Pod -> real, pods: seq<Pod>): real {
    if pods == [] then 0.0 else RealSum(f, pods[..|pods| - 1]) + f(pods[|pods| - 1])
  }

  function DemandOf(n: CostedNode): Pod -> real { (p: Pod) => Demand(p, n) }

  function WeightOf(n: CostedNode): Pod -> real { (p: Pod) => Weight(p, n) }

  /** The value of the pods in the group, and nothing for the others. */
  function Only(f: Pod -> real, group: Pod -> bool): Pod -> real {
    (p: Pod) => if group(p) then f(p) else 0.0
  }

  /** What the pods of a group demand of the node together. */
  function GroupDemand(n: CostedNode, group: Pod -> bool): real {
    RealSum(Only(DemandOf(n), group), n.pods)
  }

  lemma HalfOfQuotient(x: real, a: real, u: real)
    requires a > 0.0 && u * a == 0.5
    ensures 0.5 * x / a == x * u
  {
    assert 0.5 * x == x * u * a;
  }

  lemma Distributes(x: real, b: real, y: real, a: real, u: real)
    ensures x * (u * b) + y * (u * a) == (x * b + y * a) * u
  {
  }

  lemma TwoHalves(x: real, y: real, a: real, b: real, u: real)
    requires a > 0.0 && b > 0.0 && u * a * b == 0.5
    ensures 0.5 * x / a + 0.5 * y / b == (x * b + y * a) * u
  {
    HalfOfQuotient(x, a, u * b);
    HalfOfQuotient(y, b, u * a);
    Distributes(x, b, y, a, u);
  }

  lemma Factor(a: real, b: real, u: real)
    ensures a * u + b * u == (a + b) * u
  {
  }

  predicate IsTimesAt(f: Pod -> real, g: Pod -> real, u: real, p: Pod) {
    f(p) == g(p) * u
  }

  /** The one is so many times the other. */
  ghost predicate IsTimes(f: Pod -> real, g: Pod -> real, u: real) {
    forall p :: IsTimesAt(f, g, u, p)
  }

  ghost predicate AreProportional(f: Pod -> real, g: Pod -> real) {
    exists u :: u > 0.0 && IsTimes(f, g, u)
  }

  lemma TimesOverBoth(n: CostedNode, p: Pod, u: real)
    requires n.cpuCapacity > 0 && n.memoryCapacity > 0
    requires u * n.cpuCapacity as real * n.memoryCapacity as real == 0.5
    ensures IsTimesAt(WeightOf(n), DemandOf(n), u, p)
  {
    TwoHalves(CpuRequest(p) as real, MemoryRequest(p) as real, n.cpuCapacity as real, n.memoryCapacity as real, u);
  }

  lemma TimesOverOne(n: CostedNode, p: Pod, u: real)
    requires n.cpuCapacity <= 0 || n.memoryCapacity <= 0
    requires n.cpuCapacity > 0 ==> u * n.cpuCapacity as real == 0.5
    requires n.memoryCapacity > 0 ==> u * n.memoryCapacity as real == 0.5
    ensures IsTimesAt(WeightOf(n), DemandOf(n), u, p)
  {
    if n.cpuCapacity > 0 {
      HalfOfQuotient(CpuRequest(p) as real, n.cpuCapacity as real, u);
    } else if n.memoryCapacity > 0 {
      HalfOfQuotient(MemoryRequest(p) as real, n.memoryCapacity as real, u);
    }
  }

  lemma HalfOver(a: real) returns (u: real)
    requires a > 0.0
    ensures u > 0.0 && u * a == 0.5
  {
    u := 0.5 / a;
  }

  lemma HalfOverProduct(a: real, b: real) returns (u: real)
    requires a > 0.0 && b > 0.0
    ensures u > 0.0 && u * a * b == 0.5
  {
    var v := HalfOver(a);
    u := v / b;
    assert u * b == v;
    assert u * a * b == u * b * a;
  }

  lemma ProportionalOverBoth(n: CostedNode)
    requires n.cpuCapacity > 0 && n.memoryCapacity > 0
    ensures AreProportional(WeightOf(n), DemandOf(n))
  {
    var u := HalfOverProduct(n.cpuCapacity as real, n.memoryCapacity as real);
    forall p ensures IsTimesAt(WeightOf(n), DemandOf(n), u, p) {
      TimesOverBoth(n, p, u);
    }
    assert IsTimes(WeightOf(n), DemandOf(n), u);
  }

  /** The weights on a node are in the proportion of the demands. */
  lemma WeightsAreProportional(n: CostedNode)
    ensures AreProportional(WeightOf(n), DemandOf(n))
  {
    if n.cpuCapacity > 0 && n.memoryCapacity > 0 {
      ProportionalOverBoth(n);
    } else {
      var u := HalfOver(if n.cpuCapacity > 0 then n.cpuCapacity as real
                        else if n.memoryCapacity > 0 then n.memoryCapacity as real else 1.0);
      forall p ensures IsTimesAt(WeightOf(n), DemandOf(n), u, p) {
        TimesOverOne(n, p, u);
      }
      assert IsTimes(WeightOf(n), DemandOf(n), u);
    }
  }

  lemma {:induction false} SumScales(f: Pod -> real, g: Pod -> real, u: real, group: Pod -> bool, pods: seq<Pod>)
    requires IsTimes(f, g, u)
    ensures RealSum(Only(f, group), pods) == RealSum(Only(g, group), pods) * u
  {
    if pods != [] {
      var front, p := pods[..|pods| - 1], pods[|pods| - 1];
      SumScales(f, g, u, group, front);
      assert IsTimesAt(f, g, u, p);
      Factor(RealSum(Only(g, group), front), g(p), u);
    }
  }

  lemma {:induction false} TotalIsSum(pods: seq<Pod>, n: CostedNode)
    ensures TotalWeight(pods, n) == RealSum(Only(WeightOf(n), Everybody()), pods)
  {
    if pods != [] {
      TotalIsSum(pods[..|pods| - 1], n);
    }
  }

  lemma {:induction false} ChargesAreOfWeights(node: CostedNode, n: nat, group: Pod -> bool)
    requires n <= |node.pods| && IsDistributed(node)
    ensures NodeCharges(node, n, group)
         == Portion(MonthlyCost(node), RealSum(Only(WeightOf(node), group), node.pods[..n]), TotalWeight(node.pods, node))
  {
    var total, cost := TotalWeight(node.pods, node), MonthlyCost(node);
    WholePortion(cost, total);
    if n > 0 {
      ChargesAreOfWeights(node, n - 1, group);
      assert node.pods[..n][..n - 1] == node.pods[..n - 1];
      PortionsAdd(cost, RealSum(Only(WeightOf(node), group), node.pods[..n - 1]), Only(WeightOf(node), group)(node.pods[n - 1]), total);
    }
  }

  lemma Reduced(cost: real, part: real, all: real, part': real, all': real, u: real)
    requires u > 0.0 && part == part' * u && all == all' * u && all != 0.0
    ensures all' != 0.0 && Portion(cost, part, all) == Portion(cost, part', all')
  {
    assert cost * (part' * u) == (cost * part') * u;
    Cancel(cost * part', all', u);
  }

  lemma Cancel(x: real, y: real, u: real)
    requires u != 0.0 && y != 0.0
    ensures y * u != 0.0 && (x * u) / (y * u) == x / y
  {
  }

  lemma SamePart(cost: real, f: Pod -> real, g: Pod -> real, group: Pod -> bool, pods: seq<Pod>)
    requires AreProportional(f, g) && RealSum(Only(f, Everybody()), pods) != 0.0
    ensures RealSum(Only(g, Everybody()), pods) != 0.0
    ensures Portion(cost, RealSum(Only(f, group), pods), RealSum(Only(f, Everybody()), pods))
         == Portion(cost, RealSum(Only(g, group), pods), RealSum(Only(g, Everybody()), pods))
  {
    var u :| u > 0.0 && IsTimes(f, g, u);
    SumScales(f, g, u, group, pods);
    SumScales(f, g, u, Everybody(), pods);
    Reduced(cost, RealSum(Only(f, group), pods), RealSum(Only(f, Everybody()), pods),
            RealSum(Only(g, group), pods), RealSum(Only(g, Everybody()), pods), u);
  }

  /** A group of pods is charged that part of the node's cost which its demand is of the demand of all pods there. */
  lemma GroupFollowsDemand(node: CostedNode, group: Pod -> bool)
    requires IsDistributed(node)
    ensures GroupDemand(node, Everybody()) != 0.0
    ensures NodeCharges(node, |node.pods|, group)
         == Portion(MonthlyCost(node), GroupDemand(node, group), GroupDemand(node, Everybody()))
  {
    ChargesAreOfWeights(node, |node.pods|, group);
    assert node.pods[..|node.pods|] == node.pods;
    TotalIsSum(node.pods, node);
    WeightsAreProportional(node);
    SamePart(MonthlyCost(node), WeightOf(node), DemandOf(node), group, node.pods);
  }

  /** So does every entry of an allocation of one node. */
  lemma EntryFollowsDemand(costs: map<string, real>, node: CostedNode, key: Pod -> string, k: string)
    requires IsDistributed(node) && IsAllocation(costs, [node], key)
    ensures GroupDemand(node, Everybody()) != 0.0
    ensures CostOf(costs, k)
         == Portion(MonthlyCost(node), GroupDemand(node, KeyIn(key, {k})), GroupDemand(node, Everybody()))
  {
    GroupFollowsDemand(node, KeyIn(key, {k}));
    assert [node][..0] == [];
    assert CostOf(costs, k) == Charges([node], KeyIn(key, {k}));
  }

  /** The same fraction of the CPU as of the memory costs the same. */
  lemma EqualFractionsCostTheSame(n: CostedNode, i: nat, j: nat)
    requires IsDistributed(n) && i < |n.pods| && j < |n.pods|
    requires n.cpuCapacity > 0 && n.memoryCapacity > 0
    requires MemoryRequest(n.pods[i]) == 0 && CpuRequest(n.pods[j]) == 0
    requires CpuRequest(n.pods[i]) * n.memoryCapacity == MemoryRequest(n.pods[j]) * n.cpuCapacity
    ensures Charge(n, i) == Charge(n, j)
  {
    RealOfProduct(CpuRequest(n.pods[i]), n.memoryCapacity);
    RealOfProduct(MemoryRequest(n.pods[j]), n.cpuCapacity);
    SameDemandSameCharge(n, i, j);
  }

  lemma SameValue(f: Pod -> real, g: Pod -> real, p: Pod, q: Pod)
    requires AreProportional(f, g) && g(p) == g(q)
    ensures f(p) == f(q)
  {
    var u :| u > 0.0 && IsTimes(f, g, u);
    assert IsTimesAt(f, g, u, p) && IsTimesAt(f, g, u, q);
  }

  lemma SameDemandSameCharge(n: CostedNode, i: nat, j: nat)
    requires IsDistributed(n) && i < |n.pods| && j < |n.pods|
    requires Demand(n.pods[i], n) == Demand(n.pods[j], n)
    ensures Charge(n, i) == Charge(n, j)
  {
    WeightsAreProportional(n);
    SameValue(WeightOf(n), DemandOf(n), n.pods[i], n.pods[j]);
  }

  lemma SharesAdd(a: nat, b: nat, capacity: int)
    ensures Share(a + b, capacity) == Share(a, capacity) + Share(b, capacity)
  {
    if capacity > 0 {
      var x, y, c := a as real, b as real, capacity as real;
      assert (a + b) as real == x + y;
      assert 0.5 * (x + y) / c == 0.5 * x / c + 0.5 * y / c;
    }
  }

  /** A pod that requests what two others request together is charged what those two are charged together. */
  lemma RequestsAddUp(n: CostedNode, i: nat, j: nat, both: nat)
    requires IsDistributed(n) && i < |n.pods| && j < |n.pods| && both < |n.pods|
    requires CpuRequest(n.pods[both]) == CpuRequest(n.pods[i]) + CpuRequest(n.pods[j])
    requires MemoryRequest(n.pods[both]) == MemoryRequest(n.pods[i]) + MemoryRequest(n.pods[j])
    ensures Charge(n, both) == Charge(n, i) + Charge(n, j)
  {
    SharesAdd(CpuRequest(n.pods[i]), CpuRequest(n.pods[j]), n.cpuCapacity);
    SharesAdd(MemoryRequest(n.pods[i]), MemoryRequest(n.pods[j]), n.memoryCapacity);
    PortionsAdd(MonthlyCost(n), Weight(n.pods[i], n), Weight(n.pods[j], n), TotalWeight(n.pods, n));
  }

  // ---- The whole bill --------------------------------------------------------

  /** Some pod requests a resource of which the node has some. */
  ghost predicate HasDemand(n: CostedNode) {
    exists p :: p in n.pods && IsDemanding(p, n)
  }

  predicate IsDemanding(p: Pod, n: CostedNode) {
    (n.cpuCapacity > 0 && CpuRequest(p) > 0) || (n.memoryCapacity > 0 && MemoryRequest(p) > 0)
  }

  lemma ShareIsPositiveIff(request: nat, capacity: int)
    ensures Share(request, capacity) >= 0.0
    ensures Share(request, capacity) > 0.0 <==> capacity > 0 && request > 0
  {
  }

  lemma WeightIsPositiveIff(p: Pod, n: CostedNode)
    ensures Weight(p, n) >= 0.0
    ensures Weight(p, n) > 0.0 <==> IsDemanding(p, n)
  {
    ShareIsPositiveIff(CpuRequest(p), n.cpuCapacity);
    ShareIsPositiveIff(MemoryRequest(p), n.memoryCapacity);
  }

  lemma {:induction false} TotalIsPositiveIff(pods: seq<Pod>, n: CostedNode)
    ensures TotalWeight(pods, n) >= 0.0
    ensures TotalWeight(pods, n) > 0.0 <==> exists p :: p in pods && IsDemanding(p, n)
  {
    if pods != [] {
      var front, last := pods[..|pods| - 1], pods[|pods| - 1];
      TotalIsPositiveIff(front, n);
      WeightIsPositiveIff(last, n);
      assert pods == front + [last];
    }
  }

  /** The cost of a node is distributed exactly when it costs something and some pod has a demand on it. */
  lemma DistributedIff(n: CostedNode)
    ensures IsDistributed(n) <==> n.hourlyCost != 0.0 && HasDemand(n)
  {
    TotalIsPositiveIff(n.pods, n);
  }

  /** What all nodes with a demand cost in a month of 730.5 hours. */
  ghost function Bill(nodes: seq<CostedNode>): real {
    if nodes == [] then 0.0
    else
      var n := nodes[|nodes| - 1];
      Bill(nodes[..|nodes| - 1]) + if HasDemand(n) then n.hourlyCost * 730.5 else 0.0
  }

  lemma {:induction false} DistributedCostIsBill(nodes: seq<CostedNode>)
    ensures DistributedCost(nodes) == Bill(nodes)
  {
    if nodes != [] {
      DistributedCostIsBill(nodes[..|nodes| - 1]);
      DistributedIff(nodes[|nodes| - 1]);
    }
  }

  /** However the pods are grouped, the groups together pay exactly for the nodes with a demand. */
  lemma GroupsPayTheBill(costs: map<string, real>, nodes: seq<CostedNode>, key: Pod -> string)
    requires IsAllocation(costs, nodes, key)
    ensures SumOf(costs, costs.Keys) == Bill(nodes)
  {
    AllocationConserves(costs, nodes, key);
    DistributedCostIsBill(nodes);
  }

  /** What all nodes cost in a month. */
  function ClusterCost(nodes: seq<CostedNode>): real {
    if nodes == [] then 0.0 else ClusterCost(nodes[..|nodes| - 1]) + nodes[|nodes| - 1].hourlyCost * 730.5
  }

  ghost predicate IsPaidFor(n: CostedNode) {
    n.hourlyCost == 0.0 || HasDemand(n)
  }

  lemma {:induction false} BillIsClusterCostIff(nodes: seq<CostedNode>)
    requires forall n | n in nodes :: n.hourlyCost >= 0.0
    ensures Bill(nodes) <= ClusterCost(nodes)
    ensures Bill(nodes) == ClusterCost(nodes) <==> forall n | n in nodes :: IsPaidFor(n)
  {
    if nodes != [] {
      var front, last := nodes[..|nodes| - 1], nodes[|nodes| - 1];
      assert nodes == front + [last];
      BillIsClusterCostIff(front);
      assert (forall n | n in nodes :: IsPaidFor(n)) <==> (forall n | n in front :: IsPaidFor(n)) && IsPaidFor(last) by {
        assert last in nodes && forall n | n in nodes :: n in front || n == last;
      }
    }
  }

  /** They pay for the whole cluster exactly when every node that costs something has a pod with a demand on it. */
  lemma GroupsPayForTheClusterIff(costs: map<string, real>, nodes: seq<CostedNode>, key: Pod -> string)
    requires IsAllocation(costs, nodes, key) && forall n | n in nodes :: n.hourlyCost >= 0.0
    ensures SumOf(costs, costs.Keys) == ClusterCost(nodes) <==>
            forall n | n in nodes && n.hourlyCost > 0.0 :: HasDemand(n)
  {
    GroupsPayTheBill(costs, nodes, key);
    BillIsClusterCostIff(nodes);
    assert (forall n | n in nodes :: IsPaidFor(n)) <==> forall n | n in nodes && n.hourlyCost > 0.0 :: HasDemand(n);
  }

  // ---- Other units -----------------------------------------------------------

  function Times(quantity: Option<nat>, factor: nat): Option<nat> {
    match quantity
    case Some(v) => Some(v * factor)
    case None => None
  }

  /** The same request, with CPU and memory counted in units that are so many times smaller. */
  function ResourcesIn(r: Resources, c: nat, m: nat): Resources {
    r.(cpu := Times(r.cpu, c), memory := Times(r.memory, m))
  }

  function AllIn(rs: seq<Resources>, c: nat, m: nat): seq<Resources> {
    seq(|rs|, i requires 0 <= i < |rs| => ResourcesIn(rs[i], c, m))
  }

  function PodIn(p: Pod, c: nat, m: nat): Pod {
    p.(containers := AllIn(p.containers, c, m), initContainers := AllIn(p.initContainers, c, m))
  }

  function NodeIn(n: CostedNode, c: nat, m: nat): CostedNode {
    n.(cpuCapacity := n.cpuCapacity * c, memoryCapacity := n.memoryCapacity * m,
       pods := seq(|n.pods|, i requires 0 <= i < |n.pods| => PodIn(n.pods[i], c, m)))
  }

  function NodesIn(nodes: seq<CostedNode>, c: nat, m: nat): seq<CostedNode> {
    seq(|nodes|, i requires 0 <= i < |nodes| => NodeIn(nodes[i], c, m))
  }

  lemma {:induction false} SumTimes(f: Resources -> nat, g: Resources -> nat, k: nat, rs: seq<Resources>, ts: seq<Resources>)
    requires |rs| == |ts| && forall i | 0 <= i < |rs| :: f(ts[i]) == g(rs[i]) * k
    ensures SumBy(f, ts) == SumBy(g, rs) * k
  {
    if rs != [] {
      var last := |rs| - 1;
      SumTimes(f, g, k, rs[..last], ts[..last]);
      assert SumBy(g, rs) * k == SumBy(g, rs[..last]) * k + g(rs[last]) * k;
    }
  }

  lemma SumsIn(rs: seq<Resources>, c: nat, m: nat)
    ensures SumBy(CpuOf, AllIn(rs, c, m)) == SumBy(CpuOf, rs) * c
    ensures SumBy(MemoryOf, AllIn(rs, c, m)) == SumBy(MemoryOf, rs) * m
  {
    SumTimes(CpuOf, CpuOf, c, rs, AllIn(rs, c, m));
    SumTimes(MemoryOf, MemoryOf, m, rs, AllIn(rs, c, m));
  }

  lemma ShareIn(request: nat, capacity: int, k: nat)
    requires k > 0
    ensures Share(request * k, capacity * k) == Share(request, capacity)
  {
    RealOfProduct(request, k);
    RealOfProduct(capacity, k);
    if capacity > 0 {
      Reduce(request as real, capacity as real, k as real);
    }
  }

  lemma Reduce(x: real, a: real, k: real)
    requires a > 0.0 && k > 0.0
    ensures a * k > 0.0 && 0.5 * (x * k) / (a * k) == 0.5 * x / a
  {
  }

  lemma WeightInUnits(p: Pod, n: CostedNode, c: nat, m: nat)
    requires c > 0 && m > 0
    ensures Weight(PodIn(p, c, m), NodeIn(n, c, m)) == Weight(p, n)
  {
    SumsIn(p.containers, c, m);
    ShareIn(CpuRequest(p), n.cpuCapacity, c);
    ShareIn(MemoryRequest(p), n.memoryCapacity, m);
  }

  /** A pod of the one node counts like the pod at the same place of the other. */
  lemma {:induction false} TotalInUnits(n: CostedNode, upTo: nat, c: nat, m: nat)
    requires c > 0 && m > 0 && upTo <= |n.pods|
    ensures TotalWeight(NodeIn(n, c, m).pods[..upTo], NodeIn(n, c, m)) == TotalWeight(n.pods[..upTo], n)
  {
    if upTo > 0 {
      var n' := NodeIn(n, c, m);
      TotalInUnits(n, upTo - 1, c, m);
      assert n.pods[..upTo][..upTo - 1] == n.pods[..upTo - 1] && n'.pods[..upTo][..upTo - 1] == n'.pods[..upTo - 1];
      WeightInUnits(n.pods[upTo - 1], n, c, m);
    }
  }

  lemma DistributedInUnits(n: CostedNode, c: nat, m: nat)
    requires c > 0 && m > 0
    ensures TotalWeight(NodeIn(n, c, m).pods, NodeIn(n, c, m)) == TotalWeight(n.pods, n)
    ensures IsDistributed(NodeIn(n, c, m)) <==> IsDistributed(n)
  {
    TotalInUnits(n, |n.pods|, c, m);
    assert n.pods[..|n.pods|] == n.pods && NodeIn(n, c, m).pods[..|n.pods|] == NodeIn(n, c, m).pods;
    ZeroTimes(n.cpuCapacity, c);
    ZeroTimes(n.memoryCapacity, m);
  }

  lemma ZeroTimes(a: int, k: nat)
    requires k > 0
    ensures a * k == 0 <==> a == 0
  {
  }

  lemma ChargeInUnits(n: CostedNode, i: nat, c: nat, m: nat)
    requires c > 0 && m > 0 && i < |n.pods| && IsDistributed(n)
    ensures IsDistributed(NodeIn(n, c, m)) && Charge(NodeIn(n, c, m), i) == Charge(n, i)
  {
    DistributedInUnits(n, c, m);
    WeightInUnits(n.pods[i], n, c, m);
  }

  /** The key of a pod does not depend on the units. */
  ghost predicate IsUnitless(key: Pod -> string, c: nat, m: nat) {
    forall p :: key(PodIn(p, c, m)) == key(p)
  }

  lemma {:induction false} NodeChargesInUnits(n: CostedNode, upTo: nat, key: Pod -> string, k: string, c: nat, m: nat)
    requires c > 0 && m > 0 && upTo <= |n.pods| && IsDistributed(n) && IsUnitless(key, c, m)
    ensures IsDistributed(NodeIn(n, c, m))
    ensures NodeCharges(NodeIn(n, c, m), upTo, KeyIn(key, {k})) == NodeCharges(n, upTo, KeyIn(key, {k}))
  {
    DistributedInUnits(n, c, m);
    if upTo > 0 {
      NodeChargesInUnits(n, upTo - 1, key, k, c, m);
      ChargeInUnits(n, upTo - 1, c, m);
    }
  }

  lemma {:induction false} ChargesInUnits(nodes: seq<CostedNode>, key: Pod -> string, k: string, c: nat, m: nat)
    requires c > 0 && m > 0 && IsUnitless(key, c, m)
    ensures Charges(NodesIn(nodes, c, m), KeyIn(key, {k})) == Charges(nodes, KeyIn(key, {k}))
  {
    if nodes != [] {
      var last := |nodes| - 1;
      ChargesInUnits(nodes[..last], key, k, c, m);
      assert NodesIn(nodes, c, m)[..last] == NodesIn(nodes[..last], c, m);
      DistributedInUnits(nodes[last], c, m);
      if IsDistributed(nodes[last]) {
        NodeChargesInUnits(nodes[last], |nodes[last].pods|, key, k, c, m);
      }
    }
  }

  lemma ChargedAt(nodes: seq<CostedNode>, p: Pod) returns (i: nat, j: nat)
    requires IsCharged(p, nodes)
    ensures i < |nodes| && IsDistributed(nodes[i]) && j < |nodes[i].pods| && nodes[i].pods[j] == p
  {
    var n :| n in nodes && IsDistributed(n) && p in n.pods;
    i :| 0 <= i < |nodes| && nodes[i] == n;
    j :| 0 <= j < |n.pods| && n.pods[j] == p;
  }

  lemma ChargedStays(nodes: seq<CostedNode>, p: Pod, c: nat, m: nat)
    requires c > 0 && m > 0 && IsCharged(p, nodes)
    ensures IsCharged(PodIn(p, c, m), NodesIn(nodes, c, m))
  {
    var i, j := ChargedAt(nodes, p);
    DistributedInUnits(nodes[i], c, m);
    var n' := NodesIn(nodes, c, m)[i];
    assert n' in NodesIn(nodes, c, m) && n'.pods[j] in n'.pods;
  }

  lemma ChargedWas(nodes: seq<CostedNode>, p': Pod, c: nat, m: nat) returns (p: Pod)
    requires c > 0 && m > 0 && IsCharged(p', NodesIn(nodes, c, m))
    ensures IsCharged(p, nodes) && p' == PodIn(p, c, m)
  {
    var i, j := ChargedAt(NodesIn(nodes, c, m), p');
    DistributedInUnits(nodes[i], c, m);
    p := nodes[i].pods[j];
    assert nodes[i] in nodes && p in nodes[i].pods;
  }

  lemma ChargedInUnits(nodes: seq<CostedNode>, key: Pod -> string, k: string, c: nat, m: nat)
    requires c > 0 && m > 0 && IsUnitless(key, c, m)
    ensures GroupIsCharged(NodesIn(nodes, c, m), key, k) <==> GroupIsCharged(nodes, key, k)
  {
    if GroupIsCharged(nodes, key, k) {
      var p :| IsCharged(p, nodes) && key(p) == k;
      ChargedStays(nodes, p, c, m);
      assert key(PodIn(p, c, m)) == k;
    }
    if GroupIsCharged(NodesIn(nodes, c, m), key, k) {
      var p' :| IsCharged(p', NodesIn(nodes, c, m)) && key(p') == k;
      var p := ChargedWas(nodes, p', c, m);
      assert key(PodIn(p, c, m)) == key(p);
    }
  }

  /** Counting CPU or memory in other units, in requests and capacities alike, changes no entry of any grouping. */
  lemma UnitsDoNotMatter(
      costs: map<string, real>, costs': map<string, real>, nodes: seq<CostedNode>, key: Pod -> string, c: nat, m: nat)
    requires c > 0 && m > 0 && IsUnitless(key, c, m)
    requires IsAllocation(costs, nodes, key) && IsAllocation(costs', NodesIn(nodes, c, m), key)
    ensures costs' == costs
  {
    forall k ensures k in costs' <==> k in costs {
      ChargedInUnits(nodes, key, k, c, m);
    }
    forall k ensures CostOf(costs', k) == CostOf(costs, k) {
      ChargesInUnits(nodes, key, k, c, m);
    }
    SameCosts(costs, costs');
  }

  lemma SameCosts(costs: map<string, real>, costs': map<string, real>)
    requires forall k :: k in costs' <==> k in costs
    requires forall k :: CostOf(costs', k) == CostOf(costs, k)
    ensures costs' == costs
  {
    forall k | k in costs ensures costs'[k] == costs[k] {
      assert CostOf(costs', k) == CostOf(costs, k);
    }
  }

  /** In particular the answers of both endpoints stay as they are. */
  lemma EndpointsIgnoreUnits(
      costs: map<string, real>, costs': map<string, real>, ws: map<string, Workload>, ws': map<string, Workload>,
      nodes: seq<CostedNode>, c: nat, m: nat)
    requires c > 0 && m > 0
    requires IsAllocation(costs, nodes, NamespaceOf) && IsAllocation(costs', NodesIn(nodes, c, m), NamespaceOf)
    requires IsAllocation(WorkloadCosts(ws), nodes, WorkloadKey)
    requires IsAllocation(WorkloadCosts(ws'), NodesIn(nodes, c, m), WorkloadKey)
    ensures costs' == costs
    ensures WorkloadCosts(ws') == WorkloadCosts(ws)
  {
    UnitsDoNotMatter(costs, costs', nodes, NamespaceOf, c, m);
    UnitsDoNotMatter(WorkloadCosts(ws), WorkloadCosts(ws'), nodes, WorkloadKey, c, m);
  }
}
