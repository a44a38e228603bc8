/** Splitting the cost of every node over its pods, grouped by namespace and by workload. */
module CostAllocation {
  import opened Totals
  import opened Keys
  import opened Cluster

  /** What the cost handlers read of a cached node. */
  datatype CostedNode = CostedNode(cpuCapacity: int, memoryCapacity: int, hourlyCost: real, pods: seq<Pod>)

  datatype Workload = Workload(namespace: string, kind: string, name: string, monthlyCost: real)

  // ---- Weights -------------------------------------------------------------

  /** The share of a capacity, half of which goes into the weight; no capacity, no share. */
  function Share(request: nat, capacity: int): real {
    if capacity > 0 then 0.5 * request as real / capacity as real else 0.0
  }

  function Weight(pod: Pod, n: CostedNode): real {
    Share(SumBy(CpuOf, pod.containers), n.cpuCapacity) + Share(SumBy(MemoryOf, pod.containers), n.memoryCapacity)
  }

  method PodWeight(containers: seq<Resources>, cpuCap: int, memCap: int) returns (w: real)
    ensures w == Share(SumBy(CpuOf, containers), cpuCap) + Share(SumBy(MemoryOf, containers), memCap)
  {
    var cpuReq, memReq := 0, 0;
    for i := 0 to |containers|
      invariant cpuReq == SumBy(CpuOf, containers[..i]) && memReq == SumBy(MemoryOf, containers[..i])
    {
      assert containers[..i + 1][..i] == containers[..i];
      if containers[i].cpu.Some? {
        cpuReq := cpuReq + containers[i].cpu.value;
      }
      if containers[i].memory.Some? {
        memReq := memReq + containers[i].memory.value;
      }
    }
    assert containers[..|containers|] == containers;
    w := 0.0;
    if cpuCap > 0 {
      w := w + 0.5 * cpuReq as real / cpuCap as real;
    }
    if memCap > 0 {
      w := w + 0.5 * memReq as real / memCap as real;
    }
  }

  function TotalWeight(pods: seq<Pod>, n: CostedNode): real {
    if pods == [] then 0.0 else TotalWeight(pods[..|pods| - 1], n) + Weight(pods[|pods| - 1], n)
  }

  method NodeWeights(n: CostedNode) returns (weights: seq<real>, total: real)
    ensures |weights| == |n.pods| && forall i | 0 <= i < |n.pods| :: weights[i] == Weight(n.pods[i], n)
    ensures total == TotalWeight(n.pods, n)
  {
    weights, total := [], 0.0;
    for i := 0 to |n.pods|
      invariant |weights| == i && forall j | 0 <= j < i :: weights[j] == Weight(n.pods[j], n)
      invariant total == TotalWeight(n.pods[..i], n)
    {
      assert n.pods[..i + 1][..i] == n.pods[..i];
      var w := PodWeight(n.pods[i].containers, n.cpuCapacity, n.memoryCapacity);
      weights, total := weights + [w], total + w;
    }
    assert n.pods[..|n.pods|] == n.pods;
  }

  function MonthlyCost(n: CostedNode): real {
    n.hourlyCost * HOURS_PER_MONTH
  }

  /** The nodes whose cost is distributed: some capacity, some cost, some weight. */
  predicate IsDistributed(n: CostedNode) {
    !(n.cpuCapacity == 0 && n.memoryCapacity == 0) && MonthlyCost(n) != 0.0 && TotalWeight(n.pods, n) != 0.0
  }

  /** A cost in proportion to a weight. */
  function Portion(cost: real, weight: real, total: real): real
    requires total != 0.0
  {
    cost * weight / total
  }

  /** The part of the node's monthly cost that pod `i` is charged. */
  function Charge(n: CostedNode, i: nat): real
    requires i < |n.pods| && IsDistributed(n)
  {
    Portion(MonthlyCost(n), Weight(n.pods[i], n), TotalWeight(n.pods, n))
  }

  // ---- Sums over maps ------------------------------------------------------

  ghost function SumOf(costs: map<string, real>, keys: set<string>): real
    requires keys <= costs.Keys
  {
    if keys == {} then 0.0
    else
      var k :| k in keys;
      costs[k] + SumOf(costs, keys - {k})
  }

  // ---- Charges of a group of pods ------------------------------------------

  /** What the first `n` pods of a node that are in the group are charged together. */
  function NodeCharges(node: CostedNode, n: nat, group: Pod -> bool): real
    requires n <= |node.pods| && IsDistributed(node)
  {
    if n == 0 then 0.0
    else NodeCharges(node, n - 1, group) + if group(node.pods[n - 1]) then Charge(node, n - 1) else 0.0
  }

  function Charges(nodes: seq<CostedNode>, group: Pod -> bool): real {
    if nodes == [] then 0.0
    else
      var n := nodes[|nodes| - 1];
      Charges(nodes[..|nodes| - 1], group) + if IsDistributed(n) then NodeCharges(n, |n.pods|, group) else 0.0
  }

  /** The pod is on a node whose cost is distributed. */
  ghost predicate IsCharged(p: Pod, nodes: seq<CostedNode>) {
    exists n :: n in nodes && IsDistributed(n) && p in n.pods
  }

  function KeyIn(key: Pod -> string, keys: set<string>): Pod -> bool { p => key(p) in keys }

  lemma {:induction false} NodeChargesAgree(node: CostedNode, n: nat, g: Pod -> bool, h: Pod -> bool)
    requires n <= |node.pods| && IsDistributed(node)
    requires forall p | p in node.pods :: g(p) == h(p)
    ensures NodeCharges(node, n, g) == NodeCharges(node, n, h)
  {
    if n > 0 {
      NodeChargesAgree(node, n - 1, g, h);
      assert node.pods[n - 1] in node.pods;
    }
  }

  /** Groups with the same charged pods are charged the same. */
  lemma {:induction false} ChargesAgree(nodes: seq<CostedNode>, g: Pod -> bool, h: Pod -> bool)
    requires forall p | IsCharged(p, nodes) :: g(p) == h(p)
    ensures Charges(nodes, g) == Charges(nodes, h)
  {
    if nodes != [] {
      var n := nodes[|nodes| - 1];
      forall p | IsCharged(p, nodes[..|nodes| - 1]) ensures g(p) == h(p) {
        var m :| m in nodes[..|nodes| - 1] && IsDistributed(m) && p in m.pods;
        assert m in nodes;
        assert IsCharged(p, nodes);
      }
      ChargesAgree(nodes[..|nodes| - 1], g, h);
      if IsDistributed(n) {
        forall p | p in n.pods ensures g(p) == h(p) {
          assert IsCharged(p, nodes);
        }
        NodeChargesAgree(n, |n.pods|, g, h);
      }
    }
  }

  lemma {:induction false} NodeChargesSplit(node: CostedNode, n: nat, key: Pod -> string, keys: set<string>, k: string)
    requires n <= |node.pods| && IsDistributed(node) && k in keys
    ensures NodeCharges(node, n, KeyIn(key, keys))
         == NodeCharges(node, n, KeyIn(key, {k})) + NodeCharges(node, n, KeyIn(key, keys - {k}))
  {
    if n > 0 {
      NodeChargesSplit(node, n - 1, key, keys, k);
    }
  }

  lemma {:induction false} ChargesSplit(nodes: seq<CostedNode>, key: Pod -> string, keys: set<string>, k: string)
    requires k in keys
    ensures Charges(nodes, KeyIn(key, keys)) == Charges(nodes, KeyIn(key, {k})) + Charges(nodes, KeyIn(key, keys - {k}))
  {
    if nodes != [] {
      ChargesSplit(nodes[..|nodes| - 1], key, keys, k);
      var n := nodes[|nodes| - 1];
      if IsDistributed(n) {
        NodeChargesSplit(n, |n.pods|, key, keys, k);
      }
    }
  }

  lemma {:induction false} NobodyIsChargedNothing(nodes: seq<CostedNode>, key: Pod -> string)
    ensures Charges(nodes, KeyIn(key, {})) == 0.0
  {
    if nodes != [] {
      var n := nodes[|nodes| - 1];
      NobodyIsChargedNothing(nodes[..|nodes| - 1], key);
      if IsDistributed(n) {
        NodeNobody(n, |n.pods|, key);
      }
    }
  }

  lemma {:induction false} NodeNobody(node: CostedNode, n: nat, key: Pod -> string)
    requires n <= |node.pods| && IsDistributed(node)
    ensures NodeCharges(node, n, KeyIn(key, {})) == 0.0
  {
    if n > 0 {
      NodeNobody(node, n - 1, key);
    }
  }

  /** Pods grouped by key: the groups' charges add up to the charge of all of them, in any order of the keys. */
  lemma {:induction false} GroupsAddUp(nodes: seq<CostedNode>, key: Pod -> string, keys: set<string>, costs: map<string, real>)
    requires keys <= costs.Keys
    requires forall k | k in keys :: costs[k] == Charges(nodes, KeyIn(key, {k}))
    ensures SumOf(costs, keys) == Charges(nodes, KeyIn(key, keys))
    decreases keys
  {
    if keys == {} {
      NobodyIsChargedNothing(nodes, key);
    } else {
      var k :| k in keys && SumOf(costs, keys) == costs[k] + SumOf(costs, keys - {k});
      ChargesSplit(nodes, key, keys, k);
      GroupsAddUp(nodes, key, keys - {k}, costs);
    }
  }

  // ---- Accumulating into a map ---------------------------------------------

  function CostOf(costs: map<string, real>, k: string): real {
    if k in costs then costs[k] else 0.0
  }

  /** Some charged pod is in group `k`. */
  ghost predicate GroupIsCharged(nodes: seq<CostedNode>, key: Pod -> string, k: string) {
    exists p :: IsCharged(p, nodes) && key(p) == k
  }

  ghost predicate GroupIsAmong(pods: seq<Pod>, key: Pod -> string, k: string) {
    exists p :: p in pods && key(p) == k
  }

  /** The costs of a grouping: an entry for every group that is charged, holding what it is charged. */
  ghost predicate IsAllocation(costs: map<string, real>, nodes: seq<CostedNode>, key: Pod -> string) {
    && (forall k :: k in costs <==> GroupIsCharged(nodes, key, k))
    && (forall k :: CostOf(costs, k) == Charges(nodes, KeyIn(key, {k})))
  }

  /** The same with `n` pods of one more node taken in. */
  ghost predicate IsPartial(costs: map<string, real>, nodes: seq<CostedNode>, node: CostedNode, n: nat, key: Pod -> string)
    requires n <= |node.pods| && IsDistributed(node)
  {
    && (forall k :: k in costs <==> GroupIsCharged(nodes, key, k) || GroupIsAmong(node.pods[..n], key, k))
    && (forall k :: CostOf(costs, k) == Charges(nodes, KeyIn(key, {k})) + NodeCharges(node, n, KeyIn(key, {k})))
  }

  lemma ChargingOnePod(
      costs: map<string, real>, nodes: seq<CostedNode>, node: CostedNode, n: nat, key: Pod -> string, k: string, charge: real)
    requires n < |node.pods| && IsDistributed(node) && IsPartial(costs, nodes, node, n, key)
    requires k == key(node.pods[n]) && charge == Charge(node, n)
    ensures IsPartial(costs[k := CostOf(costs, k) + charge], nodes, node, n + 1, key)
  {
  }

  lemma GroupsWithNode(nodes: seq<CostedNode>, node: CostedNode, key: Pod -> string, k: string)
    ensures GroupIsCharged(nodes + [node], key, k) <==>
            GroupIsCharged(nodes, key, k) || (IsDistributed(node) && GroupIsAmong(node.pods, key, k))
  {
  }

  lemma NodeIsStarted(costs: map<string, real>, nodes: seq<CostedNode>, node: CostedNode, key: Pod -> string)
    requires IsDistributed(node) && IsAllocation(costs, nodes, key)
    ensures IsPartial(costs, nodes, node, 0, key)
  {
  }

  lemma NodeIsTakenIn(costs: map<string, real>, nodes: seq<CostedNode>, node: CostedNode, key: Pod -> string)
    requires IsDistributed(node) && IsPartial(costs, nodes, node, |node.pods|, key)
    ensures IsAllocation(costs, nodes + [node], key)
  {
    assert (nodes + [node])[..|nodes|] == nodes && node.pods[..|node.pods|] == node.pods;
    forall k ensures k in costs <==> GroupIsCharged(nodes + [node], key, k) {
      GroupsWithNode(nodes, node, key, k);
    }
  }

  lemma NodeIsSkipped(costs: map<string, real>, nodes: seq<CostedNode>, node: CostedNode, key: Pod -> string)
    requires !IsDistributed(node) && IsAllocation(costs, nodes, key)
    ensures IsAllocation(costs, nodes + [node], key)
  {
    assert (nodes + [node])[..|nodes|] == nodes;
    forall k ensures k in costs <==> GroupIsCharged(nodes + [node], key, k) {
      GroupsWithNode(nodes, node, key, k);
    }
  }

  lemma NothingIsAllocated(key: Pod -> string)
    ensures IsAllocation(map[], [], key)
  {
  }

  // ---- By namespace --------------------------------------------------------

  function NamespaceOf(p: Pod): string { p.namespace }

  /** Two passes over the pods of a node: their weights, then their charges. */
  method ChargeNamespaces(costs: map<string, real>, n: CostedNode, ghost nodes: seq<CostedNode>) returns (r: map<string, real>)
    requires IsAllocation(costs, nodes, NamespaceOf)
    ensures IsAllocation(r, nodes + [n], NamespaceOf)
  {
    r := costs;
    var nodeCost := n.hourlyCost * HOURS_PER_MONTH;
    var weights, totalW := NodeWeights(n);
    if (n.cpuCapacity == 0 && n.memoryCapacity == 0) || nodeCost == 0.0 || totalW == 0.0 {
      NodeIsSkipped(r, nodes, n, NamespaceOf);
      return;
    }
    NodeIsStarted(r, nodes, n, NamespaceOf);
    for j := 0 to |n.pods|
      invariant IsPartial(r, nodes, n, j, NamespaceOf)
    {
      var ns := n.pods[j].namespace;
      var charge := Portion(nodeCost, weights[j], totalW);
      ChargingOnePod(r, nodes, n, j, NamespaceOf, ns, charge);
      r := r[ns := CostOf(r, ns) + charge];
    }
    NodeIsTakenIn(r, nodes, n, NamespaceOf);
  }

  method GetByNamespace(nodes: seq<CostedNode>) returns (costs: map<string, real>)
    ensures IsAllocation(costs, nodes, NamespaceOf)
  {
    costs := map[];
    NothingIsAllocated(NamespaceOf);
    for i := 0 to |nodes|
      invariant IsAllocation(costs, nodes[..i], NamespaceOf)
    {
      assert nodes[..i + 1] == nodes[..i] + [nodes[i]];
      costs := ChargeNamespaces(costs, nodes[i], nodes[..i]);
    }
    assert nodes[..|nodes|] == nodes;
  }

  // ---- By workload ---------------------------------------------------------

  /** The first owner, or the pod itself when it has no named owner. */
  function OwnerOf(p: Pod): Owner {
    if p.owners != [] && p.owners[0].name != "" then p.owners[0] else Owner("Pod", p.name)
  }

  function WorkloadKey(p: Pod): string {
    JoinKey(p.namespace, OwnerOf(p).kind, OwnerOf(p).name)
  }

  function WorkloadCosts(ws: map<string, Workload>): map<string, real> {
    map k | k in ws :: ws[k].monthlyCost
  }

  predicate Describes(w: Workload, p: Pod) {
    w.namespace == p.namespace && w.kind == OwnerOf(p).kind && w.name == OwnerOf(p).name
  }

  /** Every entry describes some pod with its key. */
  ghost predicate DescribePods(ws: map<string, Workload>, pods: set<Pod>) {
    forall k | k in ws :: exists p :: p in pods && WorkloadKey(p) == k && Describes(ws[k], p)
  }

  ghost function PodsOf(nodes: seq<CostedNode>): set<Pod> {
    set n, p | n in nodes && p in n.pods :: p
  }

  lemma CostsAfterUpdate(ws: map<string, Workload>, k: string, w: Workload)
    ensures WorkloadCosts(ws[k := w]) == WorkloadCosts(ws)[k := w.monthlyCost]
  {
  }

  lemma DescribedAfterUpdate(ws: map<string, Workload>, pods: set<Pod>, pod: Pod, w: Workload)
    requires DescribePods(ws, pods) && pod in pods
    requires Describes(w, pod) ||
             (WorkloadKey(pod) in ws && w == ws[WorkloadKey(pod)].(monthlyCost := w.monthlyCost))
    ensures DescribePods(ws[WorkloadKey(pod) := w], pods)
  {
  }

  /** The kind and name a pod's cost is filed under. */
  method ResolveOwner(pod: Pod) returns (kind: string, name: string)
    ensures Owner(kind, name) == OwnerOf(pod)
    ensures if pod.owners != [] && pod.owners[0].name != "" then pod.owners[0] == Owner(kind, name)
            else kind == "Pod" && name == pod.name
  {
    kind, name := "", "";
    if |pod.owners| > 0 {
      kind, name := pod.owners[0].kind, pod.owners[0].name;
    }
    if name == "" {
      name, kind := pod.name, "Pod";
    }
  }

  /** `after` has `charge` more under the key, and nothing else changed in the costs. */
  ghost predicate IsCharge(ws: map<string, Workload>, after: map<string, Workload>, key: string, charge: real) {
    WorkloadCosts(after) == WorkloadCosts(ws)[key := CostOf(WorkloadCosts(ws), key) + charge]
  }

  lemma ChargingOneWorkload(
      ws: map<string, Workload>, after: map<string, Workload>, nodes: seq<CostedNode>, node: CostedNode, n: nat, charge: real)
    requires n < |node.pods| && IsDistributed(node) && IsPartial(WorkloadCosts(ws), nodes, node, n, WorkloadKey)
    requires charge == Charge(node, n) && IsCharge(ws, after, WorkloadKey(node.pods[n]), charge)
    ensures IsPartial(WorkloadCosts(after), nodes, node, n + 1, WorkloadKey)
  {
    ChargingOnePod(WorkloadCosts(ws), nodes, node, n, WorkloadKey, WorkloadKey(node.pods[n]), charge);
  }

  lemma EntryIsDescribed(ws: map<string, Workload>, pods: set<Pod>, pod: Pod, w: Workload)
    requires DescribePods(ws, pods) && pod in pods
    requires if WorkloadKey(pod) in ws then w == ws[WorkloadKey(pod)].(monthlyCost := w.monthlyCost) else Describes(w, pod)
    ensures DescribePods(ws[WorkloadKey(pod) := w], pods)
  {
    DescribedAfterUpdate(ws, pods, pod, w);
  }

  /** Adds a charge to the entry of a pod's workload, which is created when it is missing. */
  method ChargeWorkload(ws: map<string, Workload>, pod: Pod, monthlyCost: real, ghost pods: set<Pod>)
    returns (r: map<string, Workload>)
    requires DescribePods(ws, pods) && pod in pods
    ensures DescribePods(r, pods)
    ensures IsCharge(ws, r, WorkloadKey(pod), monthlyCost)
  {
    var kind, name := ResolveOwner(pod);
    var key := JoinKey(pod.namespace, kind, name);
    assert key == WorkloadKey(pod);
    var w;
    if key in ws {
      w := ws[key].(monthlyCost := ws[key].monthlyCost + monthlyCost);
    } else {
      w := Workload(pod.namespace, kind, name, monthlyCost);
    }
    r := ws[key := w];
    CostsAfterUpdate(ws, key, w);
    EntryIsDescribed(ws, pods, pod, w);
  }

  /** One turn of the loop over the pods of a node. */
  method ChargeNextPod(
      ws: map<string, Workload>, n: CostedNode, j: nat, charge: real, ghost nodes: seq<CostedNode>, ghost pods: set<Pod>)
    returns (r: map<string, Workload>)
    requires j < |n.pods| && IsDistributed(n) && IsPartial(WorkloadCosts(ws), nodes, n, j, WorkloadKey)
    requires charge == Charge(n, j) && DescribePods(ws, pods) && n.pods[j] in pods
    ensures IsPartial(WorkloadCosts(r), nodes, n, j + 1, WorkloadKey) && DescribePods(r, pods)
  {
    r := ChargeWorkload(ws, n.pods[j], charge, pods);
    ChargingOneWorkload(ws, r, nodes, n, j, charge);
  }

  method ChargeWorkloads(ws: map<string, Workload>, n: CostedNode, ghost nodes: seq<CostedNode>, ghost pods: set<Pod>)
    returns (r: map<string, Workload>)
    requires IsAllocation(WorkloadCosts(ws), nodes, WorkloadKey)
    requires DescribePods(ws, pods) && forall p | p in n.pods :: p in pods
    ensures IsAllocation(WorkloadCosts(r), nodes + [n], WorkloadKey)
    ensures DescribePods(r, pods)
  {
    r := ws;
    var nodeCost := n.hourlyCost * HOURS_PER_MONTH;
    var weights, totalW := NodeWeights(n);
    if (n.cpuCapacity == 0 && n.memoryCapacity == 0) || nodeCost == 0.0 || totalW == 0.0 {
      NodeIsSkipped(WorkloadCosts(r), nodes, n, WorkloadKey);
      return;
    }
    NodeIsStarted(WorkloadCosts(r), nodes, n, WorkloadKey);
    for j := 0 to |n.pods|
      invariant IsPartial(WorkloadCosts(r), nodes, n, j, WorkloadKey)
      invariant DescribePods(r, pods)
    {
      r := ChargeNextPod(r, n, j, Portion(nodeCost, weights[j], totalW), nodes, pods);
    }
    NodeIsTakenIn(WorkloadCosts(r), nodes, n, WorkloadKey);
  }

  method GetByWorkload(nodes: seq<CostedNode>) returns (ws: map<string, Workload>)
    ensures IsAllocation(WorkloadCosts(ws), nodes, WorkloadKey)
    ensures DescribePods(ws, PodsOf(nodes))
  {
    ws := map[];
    NothingIsAllocated(WorkloadKey);
    assert WorkloadCosts(ws) == map[];
    for i := 0 to |nodes|
      invariant IsAllocation(WorkloadCosts(ws), nodes[..i], WorkloadKey)
      invariant DescribePods(ws, PodsOf(nodes))
    {
      assert nodes[..i + 1] == nodes[..i] + [nodes[i]];
      ws := ChargeWorkloads(ws, nodes[i], nodes[..i], PodsOf(nodes));
    }
    assert nodes[..|nodes|] == nodes;
  }

  // ---- Conservation --------------------------------------------------------

  function DistributedCost(nodes: seq<CostedNode>): real {
    if nodes == [] then 0.0
    else
      var n := nodes[|nodes| - 1];
      DistributedCost(nodes[..|nodes| - 1]) + if IsDistributed(n) then MonthlyCost(n) else 0.0
  }

  function Everybody(): Pod -> bool { (p: Pod) => true }

  lemma PortionsAdd(cost: real, a: real, b: real, total: real)
    requires total != 0.0
    ensures Portion(cost, a, total) + Portion(cost, b, total) == Portion(cost, a + b, total)
  {
    assert cost * (a + b) == cost * a + cost * b;
    assert (cost * a + cost * b) / total == cost * a / total + cost * b / total;
  }

  lemma WholePortion(cost: real, total: real)
    requires total != 0.0
    ensures Portion(cost, total, total) == cost && Portion(cost, 0.0, total) == 0.0
  {
  }

  lemma {:induction false} NodeChargesByWeight(node: CostedNode, n: nat)
    requires n <= |node.pods| && IsDistributed(node)
    ensures NodeCharges(node, n, Everybody())
         == Portion(MonthlyCost(node), TotalWeight(node.pods[..n], node), TotalWeight(node.pods, node))
  {
    var total, cost := TotalWeight(node.pods, node), MonthlyCost(node);
    if n > 0 {
      NodeChargesByWeight(node, n - 1);
      assert node.pods[..n][..n - 1] == node.pods[..n - 1];
      PortionsAdd(cost, TotalWeight(node.pods[..n - 1], node), Weight(node.pods[n - 1], node), total);
    } else {
      WholePortion(cost, total);
    }
  }

  lemma {:induction false} EverybodyIsChargedEverything(nodes: seq<CostedNode>)
    ensures Charges(nodes, Everybody()) == DistributedCost(nodes)
  {
    if nodes != [] {
      var n := nodes[|nodes| - 1];
      EverybodyIsChargedEverything(nodes[..|nodes| - 1]);
      if IsDistributed(n) {
        NodeChargesByWeight(n, |n.pods|);
        WholePortion(MonthlyCost(n), TotalWeight(n.pods, n));
        assert n.pods[..|n.pods|] == n.pods;
      }
    }
  }

  /** However the pods are grouped, the costs of the groups add up to the cost of the distributed nodes. */
  lemma AllocationConserves(costs: map<string, real>, nodes: seq<CostedNode>, key: Pod -> string)
    requires IsAllocation(costs, nodes, key)
    ensures SumOf(costs, costs.Keys) == DistributedCost(nodes)
  {
    EntriesAddUp(costs, nodes, key, costs.Keys);
    ChargesAgree(nodes, KeyIn(key, costs.Keys), Everybody());
    EverybodyIsChargedEverything(nodes);
  }

  /** The keys of the workloads of a namespace. */
  function KeysOf(ws: map<string, Workload>, ns: string): set<string> {
    set k | k in ws && ws[k].namespace == ns
  }

  lemma SameKeySameNamespace(p: Pod, q: Pod)
    requires '/' !in p.namespace && '/' !in q.namespace && WorkloadKey(p) == WorkloadKey(q)
    ensures p.namespace == q.namespace
  {
    PrefixBeforeSlash(p.namespace, q.namespace,
                      OwnerOf(p).kind + "/" + OwnerOf(p).name, OwnerOf(q).kind + "/" + OwnerOf(q).name);
  }

  /** A charged pod is in the namespace exactly when its workload is one of the namespace's. */
  lemma WorkloadsOfNamespace(ws: map<string, Workload>, nodes: seq<CostedNode>, ns: string, p: Pod)
    requires IsAllocation(WorkloadCosts(ws), nodes, WorkloadKey) && DescribePods(ws, PodsOf(nodes))
    requires forall q | q in PodsOf(nodes) :: '/' !in q.namespace
    requires IsCharged(p, nodes)
    ensures p.namespace == ns <==> WorkloadKey(p) in KeysOf(ws, ns)
  {
    var k := WorkloadKey(p);
    assert GroupIsCharged(nodes, WorkloadKey, k);
    assert k in WorkloadCosts(ws);
    var q :| q in PodsOf(nodes) && WorkloadKey(q) == k && Describes(ws[k], q);
    assert p in PodsOf(nodes);
    SameKeySameNamespace(p, q);
  }

  /** The entries of an allocation add up to what their groups are charged. */
  lemma EntriesAddUp(costs: map<string, real>, nodes: seq<CostedNode>, key: Pod -> string, keys: set<string>)
    requires IsAllocation(costs, nodes, key) && keys <= costs.Keys
    ensures SumOf(costs, keys) == Charges(nodes, KeyIn(key, keys))
  {
    forall k | k in keys ensures costs[k] == Charges(nodes, KeyIn(key, {k})) {
      assert CostOf(costs, k) == costs[k];
    }
    GroupsAddUp(nodes, key, keys, costs);
  }

  /**
   The two endpoints agree: what a namespace is charged is what its workloads are charged together, when no
   namespace contains a slash.
   */
  lemma EndpointsAgree(costs: map<string, real>, ws: map<string, Workload>, nodes: seq<CostedNode>, ns: string)
    requires IsAllocation(costs, nodes, NamespaceOf)
    requires IsAllocation(WorkloadCosts(ws), nodes, WorkloadKey) && DescribePods(ws, PodsOf(nodes))
    requires forall q | q in PodsOf(nodes) :: '/' !in q.namespace
    ensures CostOf(costs, ns) == SumOf(WorkloadCosts(ws), KeysOf(ws, ns))
  {
    var keys := KeysOf(ws, ns);
    EntriesAddUp(WorkloadCosts(ws), nodes, WorkloadKey, keys);
    assert CostOf(costs, ns) == Charges(nodes, KeyIn(NamespaceOf, {ns}));
    assert Charges(nodes, KeyIn(NamespaceOf, {ns})) == Charges(nodes, KeyIn(WorkloadKey, keys)) by {
      forall p | IsCharged(p, nodes) ensures KeyIn(NamespaceOf, {ns})(p) == KeyIn(WorkloadKey, keys)(p) {
        WorkloadsOfNamespace(ws, nodes, ns, p);
      }
      ChargesAgree(nodes, KeyIn(NamespaceOf, {ns}), KeyIn(WorkloadKey, keys));
    }
  }

  // ---- Workloads are told apart --------------------------------------------

  /** The namespace and the kind of the owner contain no slash; its name may. */
  predicate IsSlashFree(p: Pod) {
    '/' !in p.namespace && '/' !in OwnerOf(p).kind
  }

  /** Different workloads have different keys. */
  lemma WorkloadKeyIsInjective(p: Pod, q: Pod)
    requires IsSlashFree(p) && IsSlashFree(q) && WorkloadKey(p) == WorkloadKey(q)
    ensures p.namespace == q.namespace && OwnerOf(p) == OwnerOf(q)
  {
    var x, y := OwnerOf(p).kind + "/" + OwnerOf(p).name, OwnerOf(q).kind + "/" + OwnerOf(q).name;
    PrefixBeforeSlash(p.namespace, q.namespace, x, y);
    SuffixAfterSlash(p.namespace, x, y);
    PrefixBeforeSlash(OwnerOf(p).kind, OwnerOf(q).kind, OwnerOf(p).name, OwnerOf(q).name);
    SuffixAfterSlash(OwnerOf(p).kind, OwnerOf(p).name, OwnerOf(q).name);
  }

  function SameWorkload(p: Pod): Pod -> bool {
    (q: Pod) => q.namespace == p.namespace && OwnerOf(q) == OwnerOf(p)
  }

  lemma SameKeyIffSameWorkload(p: Pod, q: Pod)
    requires IsSlashFree(p) && IsSlashFree(q)
    ensures WorkloadKey(q) == WorkloadKey(p) <==> SameWorkload(p)(q)
  {
    if WorkloadKey(q) == WorkloadKey(p) {
      WorkloadKeyIsInjective(p, q);
    }
  }

  lemma WorkloadCharges(nodes: seq<CostedNode>, p: Pod)
    requires IsSlashFree(p) && forall q | q in PodsOf(nodes) :: IsSlashFree(q)
    ensures Charges(nodes, KeyIn(WorkloadKey, {WorkloadKey(p)})) == Charges(nodes, SameWorkload(p))
  {
    var group := KeyIn(WorkloadKey, {WorkloadKey(p)});
    forall x | IsCharged(x, nodes) ensures group(x) == SameWorkload(p)(x) {
      assert x in PodsOf(nodes);
      SameKeyIffSameWorkload(p, x);
    }
    ChargesAgree(nodes, group, SameWorkload(p));
  }

  lemma EntryDescribes(ws: map<string, Workload>, nodes: seq<CostedNode>, p: Pod)
    requires DescribePods(ws, PodsOf(nodes)) && IsSlashFree(p) && forall q | q in PodsOf(nodes) :: IsSlashFree(q)
    requires WorkloadKey(p) in ws
    ensures Describes(ws[WorkloadKey(p)], p)
  {
    var q :| q in PodsOf(nodes) && WorkloadKey(q) == WorkloadKey(p) && Describes(ws[WorkloadKey(p)], q);
    WorkloadKeyIsInjective(p, q);
  }

  /** The entry of a workload is named after it, and holds what its own pods are charged, and no others. */
  lemma WorkloadIsChargedItsPods(ws: map<string, Workload>, nodes: seq<CostedNode>, p: Pod)
    requires IsAllocation(WorkloadCosts(ws), nodes, WorkloadKey) && DescribePods(ws, PodsOf(nodes))
    requires IsSlashFree(p) && forall q | q in PodsOf(nodes) :: IsSlashFree(q)
    requires WorkloadKey(p) in ws
    ensures Describes(ws[WorkloadKey(p)], p)
    ensures ws[WorkloadKey(p)].monthlyCost == Charges(nodes, SameWorkload(p))
  {
    EntryDescribes(ws, nodes, p);
    WorkloadCharges(nodes, p);
    assert CostOf(WorkloadCosts(ws), WorkloadKey(p)) == ws[WorkloadKey(p)].monthlyCost;
  }
}
