/** Removing nodes from the node groups that are hardly used. */
module NodeGroupRightsizing {
  import opened Wrappers
  import opened Totals
  import opened Cluster

  const MIN_NODE_DATA_POINTS: nat := 360
  const MIN_SAVINGS: real := 5.0

  /** What is read of a node's metrics over the last 6 hours. */
  datatype Usage = Usage(points: nat, cpu: nat, memory: nat)

  /** A cached node; its history is None without a metrics window. */
  datatype GroupNode = GroupNode(isGpu: bool, cpu: nat, memory: nat, hourlyCost: real, history: Option<Usage>)

  /** A node group with the capacity and usage totals kept in the cluster state. */
  datatype NodeGroup = NodeGroup(
    id: string,
    name: string,
    nodes: seq<GroupNode>,
    totalCpu: nat,
    totalMemory: nat,
    usedCpu: nat,
    usedMemory: nat)

  datatype Load = Load(cpuUsed: nat, cpu: nat, memoryUsed: nat, memory: nat)

  predicate HasEnoughData(n: GroupNode) {
    n.history.Some? && n.history.value.points >= MIN_NODE_DATA_POINTS
  }

  function PeakCpu(n: GroupNode): nat {
    if n.history.Some? then n.history.value.cpu else 0
  }

  function PeakMemory(n: GroupNode): nat {
    if n.history.Some? then n.history.value.memory else 0
  }

  function CpuOfNode(n: GroupNode): nat { n.cpu }

  function MemoryOfNode(n: GroupNode): nat { n.memory }

  predicate UsesHistory(g: NodeGroup, hasStore: bool) {
    && hasStore
    && (forall n | n in g.nodes :: HasEnoughData(n))
    && SumBy(CpuOfNode, g.nodes) > 0
    && SumBy(MemoryOfNode, g.nodes) > 0
  }

  /** The usage and capacity the decision is based on: peaks if every node has them, and the kept totals otherwise. */
  function LoadOf(g: NodeGroup, hasStore: bool): Load {
    if UsesHistory(g, hasStore) then
      Load(SumBy(PeakCpu, g.nodes), SumBy(CpuOfNode, g.nodes), SumBy(PeakMemory, g.nodes), SumBy(MemoryOfNode, g.nodes))
    else
      Load(g.usedCpu, g.totalCpu, g.usedMemory, g.totalMemory)
  }

  /** Usage as a percentage of capacity, and 0 without capacity. */
  function Utilization(used: nat, capacity: nat): real {
    if capacity == 0 then 0.0 else used as real / capacity as real * 100.0
  }

  function CpuUtilization(l: Load): real {
    Utilization(l.cpuUsed, l.cpu)
  }

  function MemoryUtilization(l: Load): real {
    Utilization(l.memoryUsed, l.memory)
  }

  function MaxUtilization(l: Load): real {
    if CpuUtilization(l) < MemoryUtilization(l) then MemoryUtilization(l) else CpuUtilization(l)
  }

  method FindLoad(g: NodeGroup, hasStore: bool) returns (l: Load, historical: bool)
    ensures l == LoadOf(g, hasStore) && historical == UsesHistory(g, hasStore)
  {
    l, historical := Load(0, 0, 0, 0), hasStore;
    if hasStore {
      var i := 0;
      while i < |g.nodes| && historical
        invariant 0 <= i <= |g.nodes|
        invariant historical ==> forall n | n in g.nodes[..i] :: HasEnoughData(n)
        invariant historical ==> l.cpuUsed == SumBy(PeakCpu, g.nodes[..i]) && l.cpu == SumBy(CpuOfNode, g.nodes[..i])
        invariant historical ==>
            l.memoryUsed == SumBy(PeakMemory, g.nodes[..i]) && l.memory == SumBy(MemoryOfNode, g.nodes[..i])
        invariant !historical ==> exists n :: n in g.nodes && !HasEnoughData(n)
        decreases |g.nodes| - i, historical
      {
        var n := g.nodes[i];
        if HasEnoughData(n) {
          assert g.nodes[..i + 1] == g.nodes[..i] + [n];
          SumByPush(PeakCpu, g.nodes[..i], n);
          SumByPush(PeakMemory, g.nodes[..i], n);
          SumByPush(CpuOfNode, g.nodes[..i], n);
          SumByPush(MemoryOfNode, g.nodes[..i], n);
          l := Load(l.cpuUsed + n.history.value.cpu, l.cpu + n.cpu, l.memoryUsed + n.history.value.memory, l.memory + n.memory);
          i := i + 1;
        } else {
          historical := false;
        }
      }
      if historical {
        assert g.nodes[..i] == g.nodes;
        historical := l.cpu > 0 && l.memory > 0;
      }
    }
    if !historical {
      l := Load(g.usedCpu, g.totalCpu, g.usedMemory, g.totalMemory);
    }
  }

  // ---- How many nodes are kept ---------------------------------------------

  /** `target` of the `n` nodes, each with the average capacity, are at most half used by the load. */
  predicate IsHalfUsedOn(used: nat, capacity: nat, n: nat, target: nat) {
    2 * n * used <= target * capacity
  }

  predicate IsEnough(l: Load, n: nat, target: nat) {
    IsHalfUsedOn(l.cpuUsed, l.cpu, n, target) && IsHalfUsedOn(l.memoryUsed, l.memory, n, target)
  }

  function Ceiling(x: real): int {
    -((-x).Floor)
  }

  function CountFor(n: nat, utilization: real): int {
    Ceiling(n as real * utilization / 50.0)
  }

  lemma CeilingIsLeast(x: real, k: int)
    ensures Ceiling(x) <= k <==> x <= k as real
  {
  }

  /** Without capacity there must be no usage, or the percentage says nothing about the load. */
  predicate IsMeasured(l: Load) {
    (l.cpu == 0 ==> l.cpuUsed == 0) && (l.memory == 0 ==> l.memoryUsed == 0)
  }

  lemma ScaleBy(x: real, y: real, c: real)
    requires c > 0.0
    ensures x <= y <==> x * c <= y * c
  {
  }

  lemma UtilizationTimesCapacity(used: nat, capacity: nat)
    requires capacity > 0
    ensures Utilization(used, capacity) * capacity as real == 100.0 * used as real
  {
    var q := used as real / capacity as real;
    assert q * capacity as real == used as real;
    assert q * 100.0 * capacity as real == 100.0 * (q * capacity as real);
  }

  /** A count is at least the one computed from a utilization exactly when it leaves that resource half used. */
  lemma HalfUsedIffCounted(used: nat, capacity: nat, n: nat, target: nat)
    requires capacity == 0 ==> used == 0
    ensures IsHalfUsedOn(used, capacity, n, target) <==> CountFor(n, Utilization(used, capacity)) <= target
  {
    var u, c := Utilization(used, capacity), capacity as real;
    CeilingIsLeast(n as real * u / 50.0, target);
    if capacity > 0 {
      UtilizationTimesCapacity(used, capacity);
      ScaleBy(n as real * u / 50.0, target as real, c);
      assert n as real * u / 50.0 * c == n as real * (u * c) / 50.0;
      assert n as real * (100.0 * used as real) / 50.0 == (2 * n * used) as real;
      assert target as real * c == (target * capacity) as real;
    }
  }

  lemma CountGrows(n: nat, u: real, v: real)
    requires u <= v
    ensures CountFor(n, u) <= CountFor(n, v)
  {
    ScaleProduct(n, u, v);
    CeilingIsLeast(n as real * u / 50.0, CountFor(n, v));
    CeilingIsLeast(n as real * v / 50.0, CountFor(n, v));
  }

  lemma ScaleProduct(n: nat, u: real, v: real)
    requires u <= v
    ensures n as real * u <= n as real * v
  {
  }

  /** The number of nodes kept for a load. */
  function Kept(n: nat, l: Load): int {
    CountFor(n, MaxUtilization(l))
  }

  /**
   The computed count is the least one that leaves both resources of the kept nodes at most half used, when a
   resource without capacity is without usage.
   */
  lemma KeptIsLeastEnough(n: nat, l: Load, target: nat)
    requires IsMeasured(l)
    ensures IsEnough(l, n, target) <==> Kept(n, l) <= target
  {
    HalfUsedIffCounted(l.cpuUsed, l.cpu, n, target);
    HalfUsedIffCounted(l.memoryUsed, l.memory, n, target);
    CountGrows(n, CpuUtilization(l), MaxUtilization(l));
    CountGrows(n, MemoryUtilization(l), MaxUtilization(l));
  }

  /** Usage recorded without any capacity reads as no usage, and the kept nodes are then not enough, whatever their number. */
  lemma UnmeasuredIsNeverEnough(n: nat, l: Load, target: nat)
    requires n > 0 && !IsMeasured(l)
    ensures !IsEnough(l, n, target)
  {
  }

  // ---- Recommendations -----------------------------------------------------

  datatype Reduction = Reduction(id: string, target: string, removable: nat, savings: real, confidence: real)

  /** Some usage, and less than a quarter of either resource. */
  predicate IsHardlyUsed(l: Load) {
    && !(CpuUtilization(l) == 0.0 && MemoryUtilization(l) == 0.0)
    && CpuUtilization(l) < 25.0
    && MemoryUtilization(l) < 25.0
  }

  predicate HasGpu(nodes: seq<GroupNode>) {
    exists n :: n in nodes && n.isGpu
  }

  predicate IsCandidate(g: NodeGroup, hasStore: bool) {
    |g.nodes| >= 2 && !HasGpu(g.nodes) && IsHardlyUsed(LoadOf(g, hasStore))
  }

  function TotalHourly(nodes: seq<GroupNode>): real {
    if nodes == [] then 0.0 else TotalHourly(nodes[..|nodes| - 1]) + nodes[|nodes| - 1].hourlyCost
  }

  lemma {:induction false} TotalHourlyAdds(a: seq<GroupNode>, b: seq<GroupNode>)
    ensures TotalHourly(a + b) == TotalHourly(a) + TotalHourly(b)
    ensures |b| == 1 ==> TotalHourly(b) == b[0].hourlyCost
  {
    if b == [] {
      assert a + b == a;
    } else {
      TotalHourlyAdds(a, b[..|b| - 1]);
      assert (a + b)[..|a + b| - 1] == a + b[..|b| - 1];
    }
  }

  /** The monthly cost of some of `n` nodes at their average hourly cost. */
  function MonthlyCost(count: int, totalHourly: real, n: nat): real
    requires n > 0
  {
    count as real * (totalHourly / n as real) * HOURS_PER_MONTH
  }

  lemma CeilingOfHalf(n: nat, x: real)
    requires 0.0 < x <= 25.0 * n as real
    ensures 1 <= Ceiling(x / 50.0) <= n - n / 2
  {
    CeilingIsLeast(x / 50.0, n - n / 2);
    CeilingIsLeast(x / 50.0, 0);
  }

  lemma ProductIsPositive(x: real, y: real)
    requires x > 0.0 && y > 0.0
    ensures x * y > 0.0
  {
  }

  lemma CountBounds(n: nat, u: real)
    requires n >= 2 && 0.0 < u <= 25.0
    ensures 1 <= CountFor(n, u) <= n - n / 2
  {
    ScaleProduct(n, u, 25.0);
    ProductIsPositive(n as real, u);
    CeilingOfHalf(n, n as real * u);
  }

  /** At least half of the nodes, rounded down, can go, and at least one is kept: no other test is ever needed. */
  lemma HalfOfTheNodesCanGo(n: nat, l: Load)
    requires n >= 2 && IsHardlyUsed(l)
    ensures MaxUtilization(l) > 0.0
    ensures 1 <= Kept(n, l) <= n - n / 2
  {
    UtilizationIsNotNegative(l.cpuUsed, l.cpu);
    UtilizationIsNotNegative(l.memoryUsed, l.memory);
    CountBounds(n, MaxUtilization(l));
  }

  lemma UtilizationIsNotNegative(used: nat, capacity: nat)
    ensures Utilization(used, capacity) >= 0.0
  {
  }

  function ReductionOf(g: NodeGroup, hasStore: bool): Option<Reduction> {
    if !IsCandidate(g, hasStore) then None
    else
      HalfOfTheNodesCanGo(|g.nodes|, LoadOf(g, hasStore));
      var removable := |g.nodes| - Kept(|g.nodes|, LoadOf(g, hasStore));
      var savings := MonthlyCost(removable, TotalHourly(g.nodes), |g.nodes|);
      if savings < MIN_SAVINGS then None
      else
        Some(Reduction(g.id, if g.name == "" then g.id else g.name, removable, savings,
                       if UsesHistory(g, hasStore) then 0.9 else 0.7))
  }

  method FindGpu(nodes: seq<GroupNode>) returns (hasGpu: bool)
    ensures hasGpu <==> HasGpu(nodes)
  {
    for i := 0 to |nodes|
      invariant forall n | n in nodes[..i] :: !n.isGpu
    {
      if nodes[i].isGpu {
        return true;
      }
    }
    return false;
  }

  method SumHourly(nodes: seq<GroupNode>) returns (total: real)
    ensures total == TotalHourly(nodes)
  {
    total := 0.0;
    for i := 0 to |nodes|
      invariant total == TotalHourly(nodes[..i])
    {
      assert nodes[..i + 1][..i] == nodes[..i];
      total := total + nodes[i].hourlyCost;
    }
    assert nodes[..|nodes|] == nodes;
  }

  method ReduceGroup(g: NodeGroup, hasStore: bool) returns (r: Option<Reduction>)
    ensures r == ReductionOf(g, hasStore)
  {
    if |g.nodes| < 2 {
      return None;
    }
    var hasGpu := FindGpu(g.nodes);
    if hasGpu {
      return None;
    }
    var l, historical := FindLoad(g, hasStore);
    var cpuUtil, memUtil := Utilization(l.cpuUsed, l.cpu), Utilization(l.memoryUsed, l.memory);
    if cpuUtil == 0.0 && memUtil == 0.0 {
      return None;
    }
    if cpuUtil >= 25.0 || memUtil >= 25.0 {
      return None;
    }
    HalfOfTheNodesCanGo(|g.nodes|, l);
    var maxUtil := if cpuUtil < memUtil then memUtil else cpuUtil;
    if maxUtil == 0.0 {
      maxUtil := 1.0;
    }
    var targetCount := CountFor(|g.nodes|, maxUtil);
    if targetCount < 1 {
      targetCount := 1;
    }
    var removable := |g.nodes| - targetCount;
    if removable <= 0 {
      return None;
    }
    var totalHourly := SumHourly(g.nodes);
    var savings := MonthlyCost(removable, totalHourly, |g.nodes|);
    if savings < MIN_SAVINGS {
      return None;
    }
    var groupName := g.name;
    if groupName == "" {
      groupName := g.id;
    }
    var confidence := 0.7;
    if historical {
      confidence := 0.9;
    }
    r := Some(Reduction(g.id, groupName, removable, savings, confidence));
  }

  function Reductions(groups: seq<NodeGroup>, hasStore: bool): seq<Reduction> {
    if groups == [] then []
    else
      var r := ReductionOf(groups[|groups| - 1], hasStore);
      Reductions(groups[..|groups| - 1], hasStore) + if r.Some? then [r.value] else []
  }

  /** Exactly the reductions of the groups, as many and in the order in which the groups come. */
  lemma {:induction false} ReductionsAreOfGroups(a: seq<NodeGroup>, g: NodeGroup, b: seq<NodeGroup>, hasStore: bool)
    ensures Reductions(a + [g] + b, hasStore) ==
            Reductions(a, hasStore)
            + (match ReductionOf(g, hasStore) case Some(r) => [r] case None => [])
            + Reductions(b, hasStore)
  {
    if b == [] {
      assert a + [g] + b == a + [g] && (a + [g])[..|a|] == a;
    } else {
      var all := a + [g] + b;
      assert all[..|all| - 1] == a + [g] + b[..|b| - 1];
      ReductionsAreOfGroups(a, g, b[..|b| - 1], hasStore);
    }
  }

  method AppendNodeGroupRightsizing(recs: seq<Reduction>, groups: seq<NodeGroup>, hasStore: bool) returns (r: seq<Reduction>)
    ensures r == recs + Reductions(groups, hasStore)
  {
    r := recs;
    for i := 0 to |groups|
      invariant r == recs + Reductions(groups[..i], hasStore)
    {
      assert groups[..i + 1][..i] == groups[..i];
      var one := ReduceGroup(groups[i], hasStore);
      if one.Some? {
        r := r + [one.value];
      }
    }
    assert groups[..|groups|] == groups;
  }

  lemma BelowQuarterIff(used: nat, capacity: nat)
    requires capacity > 0
    ensures Utilization(used, capacity) < 25.0 <==> 4 * used < capacity
    ensures Utilization(used, capacity) == 0.0 <==> used == 0
  {
    var q := used as real / capacity as real;
    assert used as real == q * capacity as real;
    if q < 0.25 {
      QuarterKeepsOrder(q, 0.25, capacity as real);
    } else {
      QuarterKeepsOrder(0.25, q, capacity as real);
    }
  }

  lemma QuarterKeepsOrder(x: real, y: real, b: real)
    requires b > 0.0
    ensures x < y ==> x * b < y * b
    ensures x == y ==> x * b == y * b
  {
  }

  predicate IsUsed(used: nat, capacity: nat) {
    capacity > 0 && used > 0
  }

  predicate IsBelowQuarter(used: nat, capacity: nat) {
    capacity == 0 || 4 * used < capacity
  }

  lemma HardlyUsedIff(l: Load)
    ensures IsHardlyUsed(l) <==>
            && (IsUsed(l.cpuUsed, l.cpu) || IsUsed(l.memoryUsed, l.memory))
            && IsBelowQuarter(l.cpuUsed, l.cpu) && IsBelowQuarter(l.memoryUsed, l.memory)
  {
    if l.cpu > 0 {
      BelowQuarterIff(l.cpuUsed, l.cpu);
    }
    if l.memory > 0 {
      BelowQuarterIff(l.memoryUsed, l.memory);
    }
  }

  /** Two or more nodes without GPUs that use something, but less than a quarter of either resource. */
  predicate IsUnderused(nodes: seq<GroupNode>, l: Load) {
    && |nodes| >= 2
    && (forall i | 0 <= i < |nodes| :: !nodes[i].isGpu)
    && (IsUsed(l.cpuUsed, l.cpu) || IsUsed(l.memoryUsed, l.memory))
    && IsBelowQuarter(l.cpuUsed, l.cpu) && IsBelowQuarter(l.memoryUsed, l.memory)
  }

  lemma CandidateIffUnderused(g: NodeGroup, hasStore: bool)
    ensures IsCandidate(g, hasStore) <==> IsUnderused(g.nodes, LoadOf(g, hasStore))
  {
    HardlyUsedIff(LoadOf(g, hasStore));
  }

  /** There is a reduction exactly for an underused group whose removable nodes cost at least five dollars a month. */
  lemma ReducedIff(g: NodeGroup, hasStore: bool)
    ensures ReductionOf(g, hasStore).Some? <==>
            && IsUnderused(g.nodes, LoadOf(g, hasStore))
            && MonthlyCost(|g.nodes| - Kept(|g.nodes|, LoadOf(g, hasStore)), TotalHourly(g.nodes), |g.nodes|) >= 5.0
  {
    CandidateIffUnderused(g, hasStore);
  }

  /** A node without six hours of data points, one each minute, makes the kept totals decide for the whole group. */
  lemma PartialHistoryIsIgnored(g: NodeGroup, n: GroupNode)
    requires n in g.nodes && (n.history == None || n.history.value.points < 6 * 60)
    ensures ReductionOf(g, true) == ReductionOf(g, false)
  {
  }

  /** With such data for all nodes the kept totals do not matter. */
  lemma CompleteHistoryDecides(g: NodeGroup, h: NodeGroup)
    requires g.id == h.id && g.name == h.name && g.nodes == h.nodes
    requires forall n | n in g.nodes :: n.history.Some? && n.history.value.points >= 6 * 60
    requires SumBy(CpuOfNode, g.nodes) > 0 && SumBy(MemoryOfNode, g.nodes) > 0
    ensures ReductionOf(g, true) == ReductionOf(h, true)
  {
  }

  /** The load then is what the nodes have and what their windows say, node by node. */
  lemma CompleteHistoryAdds(g: NodeGroup, n: GroupNode, u: Usage)
    requires UsesHistory(g, true) && n.history == Some(u) && u.points >= 6 * 60
    ensures var was, now := LoadOf(g, true), LoadOf(g.(nodes := g.nodes + [n]), true);
            && now.cpuUsed == was.cpuUsed + u.cpu && now.memoryUsed == was.memoryUsed + u.memory
            && now.cpu == was.cpu + n.cpu && now.memory == was.memory + n.memory
  {
    SumByPush(PeakCpu, g.nodes, n);
    SumByPush(PeakMemory, g.nodes, n);
    SumByPush(CpuOfNode, g.nodes, n);
    SumByPush(MemoryOfNode, g.nodes, n);
    assert forall m :: m in g.nodes + [n] <==> m in g.nodes || m == n;
  }

  /** The savings are those of a month of 730.5 hours of the removable nodes, at what the nodes cost on average. */
  lemma ReductionSavings(g: NodeGroup, hasStore: bool, r: Reduction)
    requires ReductionOf(g, hasStore) == Some(r)
    ensures r.savings * |g.nodes| as real == 730.5 * (r.removable as real * TotalHourly(g.nodes))
  {
    Average(r.removable as real, TotalHourly(g.nodes), |g.nodes| as real);
  }

  /** A reduction names its group, by its identifier when it has no name, and is surer with complete histories. */
  lemma ReductionNamesItsGroup(g: NodeGroup, hasStore: bool, r: Reduction)
    requires ReductionOf(g, hasStore) == Some(r)
    ensures r.id == g.id && r.target == if g.name != "" then g.name else g.id
    ensures r.confidence ==
            if hasStore && (forall n | n in g.nodes :: n.history.Some? && n.history.value.points >= 6 * 60)
               && SumBy(CpuOfNode, g.nodes) > 0 && SumBy(MemoryOfNode, g.nodes) > 0
            then 0.9 else 0.7
  {
  }

  lemma Average(count: real, total: real, n: real)
    requires n > 0.0
    ensures count * (total / n) * HOURS_PER_MONTH * n == 730.5 * (count * total)
  {
    assert count * (total / n) * n == count * total;
  }

  /**
   Every reduction removes at least half of the nodes, rounded down, and leaves at least one; the utilization
   projected on the nodes that stay is at most 50, and it would be above 50 on any fewer.
   */
  lemma ReductionIsSafe(g: NodeGroup, hasStore: bool, r: Reduction)
    requires ReductionOf(g, hasStore) == Some(r)
    ensures |g.nodes| / 2 <= r.removable < |g.nodes|
    ensures var n, kept, u := |g.nodes| as real, (|g.nodes| - r.removable) as real, MaxUtilization(LoadOf(g, hasStore));
            n * u <= 50.0 * kept && n * u > 50.0 * (kept - 1.0)
    ensures IsMeasured(LoadOf(g, hasStore)) ==>
              forall target: nat :: IsEnough(LoadOf(g, hasStore), |g.nodes|, target) <==> |g.nodes| - r.removable <= target
  {
    var n, l := |g.nodes|, LoadOf(g, hasStore);
    HalfOfTheNodesCanGo(n, l);
    CeilingIsLeast(n as real * MaxUtilization(l) / 50.0, Kept(n, l));
    CeilingIsLeast(n as real * MaxUtilization(l) / 50.0, Kept(n, l) - 1);
    if IsMeasured(l) {
      forall target: nat ensures IsEnough(l, n, target) <==> n - r.removable <= target {
        KeptIsLeastEnough(n, l, target);
      }
    }
  }
}
