/** Rightsizing advice for the workloads whose pods request more than they use. */
module PodRightsizing {
  import opened Wrappers
  import opened Totals
  import opened Keys
  import opened Cluster

  const SYSTEM_NAMESPACES := {"kube-system", "kube-public", "kube-node-lease"}
  const MIN_POD_AGE: int := 600_000_000_000
  const MIN_POD_DATA_POINTS: nat := 1440
  const MIN_KEEP_RATIO: real := 0.7
  const HEADROOM: real := 1.2
  const MIN_CPU: nat := 1000
  const MIN_MEMORY: nat := 32 * 1024 * 1024
  const GIB: nat := 1024 * 1024 * 1024
  const MIN_MEMORY_DELTA: nat := 2 * GIB
  const MIN_SAVINGS: real := 5.0
  const VCPU_HOURLY: real := 0.031611
  const GIB_HOURLY: real := 0.004237

  /** What is read of a container's metrics over the last 24 hours. */
  datatype Usage = Usage(points: nat, cpu: nat, memory: nat)

  /**
   The Kubernetes object of a pod. The age is in nanoseconds, None without a start time. The history has an entry
   for each container, and is None when there is no metrics store.
   */
  datatype PodObject = PodObject(
    phase: string,
    age: Option<int>,
    nodeName: string,
    history: Option<seq<Option<Usage>>>)

  datatype PodState = PodState(
    namespace: string,
    name: string,
    ownerKind: string,
    ownerName: string,
    cpuRequest: nat,
    memoryRequest: nat,
    cpuUsage: nat,
    memoryUsage: nat,
    pod: Option<PodObject>)

  datatype NodeCapacity = NodeCapacity(name: string, cpu: int, memory: int)

  // ---- Usage of a pod ------------------------------------------------------

  predicate HasEnoughData(w: Option<Usage>) {
    w.Some? && w.value.points >= MIN_POD_DATA_POINTS
  }

  function CpuIn(w: Option<Usage>): nat {
    if w.Some? then w.value.cpu else 0
  }

  function MemoryIn(w: Option<Usage>): nat {
    if w.Some? then w.value.memory else 0
  }

  predicate UsesHistory(p: PodState) {
    p.pod.Some? && p.pod.value.history.Some? && forall w | w in p.pod.value.history.value :: HasEnoughData(w)
  }

  function PeakCpu(p: PodState): nat {
    if UsesHistory(p) then SumBy(CpuIn, p.pod.value.history.value) else p.cpuUsage
  }

  function PeakMemory(p: PodState): nat {
    if UsesHistory(p) then SumBy(MemoryIn, p.pod.value.history.value) else p.memoryUsage
  }

  /** The 95th percentiles of all containers, or the current usage when some container lacks data. */
  method FindPeaks(p: PodState) returns (cpu: nat, memory: nat, historical: bool)
    ensures cpu == PeakCpu(p) && memory == PeakMemory(p) && historical == UsesHistory(p)
  {
    cpu, memory, historical := 0, 0, false;
    if p.pod.Some? && p.pod.value.history.Some? {
      var windows := p.pod.value.history.value;
      historical := true;
      var i := 0;
      while i < |windows| && historical
        invariant 0 <= i <= |windows|
        invariant historical ==> forall w | w in windows[..i] :: HasEnoughData(w)
        invariant historical ==> cpu == SumBy(CpuIn, windows[..i]) && memory == SumBy(MemoryIn, windows[..i])
        invariant !historical ==> !UsesHistory(p)
        decreases |windows| - i, historical
      {
        if HasEnoughData(windows[i]) {
          assert windows[..i + 1] == windows[..i] + [windows[i]];
          SumByPush(CpuIn, windows[..i], windows[i]);
          SumByPush(MemoryIn, windows[..i], windows[i]);
          cpu, memory := cpu + windows[i].value.cpu, memory + windows[i].value.memory;
          i := i + 1;
        } else {
          historical := false;
        }
      }
      assert historical ==> windows[..i] == windows;
    }
    if !historical {
      cpu, memory := p.cpuUsage, p.memoryUsage;
    }
  }

  /** A container without a day of data points, one each minute, makes the current usage count for the whole pod. */
  lemma PartialHistoryIsIgnored(p: PodState, w: Option<Usage>)
    requires p.pod.Some? && p.pod.value.history.Some? && w in p.pod.value.history.value
    requires w == None || w.value.points < 24 * 60
    ensures PeakCpu(p) == p.cpuUsage && PeakMemory(p) == p.memoryUsage
  {
  }

  /** With such data for all containers the current usage does not matter, and the peak grows by that of each container. */
  lemma CompleteHistoryDecides(p: PodState, history: seq<Option<Usage>>, u: Usage, cpuUsage: nat, memoryUsage: nat)
    requires p.pod.Some? && p.pod.value.history == Some(history) && u.points >= 24 * 60
    requires forall w | w in history :: w.Some? && w.value.points >= 24 * 60
    ensures var more := p.(pod := Some(p.pod.value.(history := Some(history + [Some(u)]))),
                           cpuUsage := cpuUsage, memoryUsage := memoryUsage);
            PeakCpu(more) == PeakCpu(p) + u.cpu && PeakMemory(more) == PeakMemory(p) + u.memory
    ensures history == [] ==> PeakCpu(p) == 0 && PeakMemory(p) == 0
  {
    SumByPush(CpuIn, history, Some(u));
    SumByPush(MemoryIn, history, Some(u));
    assert forall w :: w in history + [Some(u)] <==> w in history || w == Some(u);
  }

  // ---- Which pods are counted ----------------------------------------------

  /** Running, old enough, with requests, and neither a system pod nor a DaemonSet's. */
  predicate IsEligible(p: PodState) {
    && p.namespace !in SYSTEM_NAMESPACES
    && p.cpuRequest != 0
    && p.memoryRequest != 0
    && p.ownerKind != "DaemonSet"
    && (p.pod.Some? ==> p.pod.value.phase == "Running")
    && (p.pod.Some? && p.pod.value.age.Some? ==> p.pod.value.age.value >= MIN_POD_AGE)
  }

  /** An eligible pod whose CPU usage is below half of its request. */
  predicate IsCounted(p: PodState) {
    IsEligible(p) && PeakCpu(p) as real / p.cpuRequest as real < 0.5
  }

  lemma BelowHalf(x: real, y: real)
    requires y > 0.0 && x / y < 0.5
    ensures 2.0 * x < y
  {
    var q := x / y;
    assert x == q * y;
  }

  lemma CountedUsesLessThanHalf(p: PodState)
    requires IsCounted(p)
    ensures 2 * PeakCpu(p) + 1 <= p.cpuRequest
  {
    BelowHalf(PeakCpu(p) as real, p.cpuRequest as real);
  }

  function GroupKey(p: PodState): string {
    if p.ownerName == "" then JoinKey(p.namespace, "Pod", p.name) else JoinKey(p.namespace, p.ownerKind, p.ownerName)
  }

  function CpuRequestOf(p: PodState): nat { p.cpuRequest }

  function MemoryRequestOf(p: PodState): nat { p.memoryRequest }

  /** The counted pods with the given key, in order. */
  function Members(pods: seq<PodState>, key: string): seq<PodState> {
    if pods == [] then []
    else
      var p := pods[|pods| - 1];
      Members(pods[..|pods| - 1], key) + if IsCounted(p) && GroupKey(p) == key then [p] else []
  }

  lemma {:induction false} MembersAreCounted(pods: seq<PodState>, key: string, p: PodState)
    ensures p in Members(pods, key) <==> p in pods && IsCounted(p) && GroupKey(p) == key
  {
    if pods != [] {
      MembersAreCounted(pods[..|pods| - 1], key, p);
      assert pods == pods[..|pods| - 1] + [pods[|pods| - 1]];
    }
  }

  lemma AtLeastHalf(x: real, y: real)
    requires y > 0.0 && x / y >= 0.5
    ensures 2.0 * x >= y
  {
    var q := x / y;
    assert x == q * y;
  }

  lemma HalfIff(x: nat, y: nat)
    requires y > 0
    ensures x as real / y as real < 0.5 <==> 2 * x < y
  {
    if x as real / y as real < 0.5 {
      BelowHalf(x as real, y as real);
    } else {
      AtLeastHalf(x as real, y as real);
    }
  }

  /**
   A recommendation is about exactly the owner's pods that are no system pods and no DaemonSet's, run for ten minutes,
   request both resources, and use less than half of the CPU they request.
   */
  lemma MembersAreUnderused(pods: seq<PodState>, key: string, p: PodState)
    ensures p in Members(pods, key) <==>
            && p in pods && GroupKey(p) == key
            && !(p.namespace == "kube-system" || p.namespace == "kube-public" || p.namespace == "kube-node-lease")
            && p.ownerKind != "DaemonSet"
            && (p.pod.Some? ==> p.pod.value.phase == "Running")
            && (p.pod.Some? && p.pod.value.age.Some? ==> p.pod.value.age.value >= 10 * 60 * 1_000_000_000)
            && p.memoryRequest > 0 && 2 * PeakCpu(p) < p.cpuRequest
  {
    MembersAreCounted(pods, key, p);
    if p.cpuRequest > 0 {
      HalfIff(PeakCpu(p), p.cpuRequest);
    }
  }

  // ---- Groups --------------------------------------------------------------

  /** The totals of one owner, with the capacity of the node of its first pod. */
  datatype Group = Group(
    namespace: string,
    kind: string,
    name: string,
    podCount: nat,
    cpuRequest: nat,
    memoryRequest: nat,
    cpuPeak: nat,
    memoryPeak: nat,
    historical: bool,
    nodeCpu: int,
    nodeMemory: int)

  /** The capacity recorded for a name: that of the last node so named, and none at all without such a node. */
  function CapacityOf(nodes: seq<NodeCapacity>, name: string): NodeCapacity {
    if nodes == [] then NodeCapacity(name, 0, 0)
    else if nodes[|nodes| - 1].name == name then nodes[|nodes| - 1]
    else CapacityOf(nodes[..|nodes| - 1], name)
  }

  function CapacityFor(nodes: seq<NodeCapacity>, p: PodState): NodeCapacity {
    if p.pod.Some? then CapacityOf(nodes, p.pod.value.nodeName) else NodeCapacity("", 0, 0)
  }

  /** The capacity for a pod is that of the node it names, and none when there is no such node, or no pod. */
  lemma {:induction false} CapacityIsOfItsNode(nodes: seq<NodeCapacity>, p: PodState, i: nat)
    requires p.pod.Some? && i < |nodes| && nodes[i].name == p.pod.value.nodeName
    requires forall j | i < j < |nodes| :: nodes[j].name != nodes[i].name
    ensures CapacityFor(nodes, p) == nodes[i]
  {
    if i < |nodes| - 1 {
      CapacityIsOfItsNode(nodes[..|nodes| - 1], p, i);
    }
  }

  lemma {:induction false} NoNodeNoCapacity(nodes: seq<NodeCapacity>, p: PodState)
    requires p.pod.Some? ==> forall n | n in nodes :: n.name != p.pod.value.nodeName
    ensures CapacityFor(nodes, p).cpu == 0 && CapacityFor(nodes, p).memory == 0
  {
    if p.pod.Some? && nodes != [] {
      NoNodeNoCapacity(nodes[..|nodes| - 1], p);
    }
  }

  function EmptyGroup(p: PodState, nodes: seq<NodeCapacity>): Group {
    Group(p.namespace, if p.ownerName == "" then "Pod" else p.ownerKind,
          if p.ownerName == "" then p.name else p.ownerName, 0, 0, 0, 0, 0, false,
          CapacityFor(nodes, p).cpu, CapacityFor(nodes, p).memory)
  }

  ghost predicate HasTotals(g: Group, members: seq<PodState>) {
    && g.podCount == |members|
    && g.cpuRequest == SumBy(CpuRequestOf, members)
    && g.memoryRequest == SumBy(MemoryRequestOf, members)
    && g.cpuPeak == SumBy(PeakCpu, members)
    && g.memoryPeak == SumBy(PeakMemory, members)
    && (g.historical <==> exists p :: p in members && UsesHistory(p))
  }

  /** The group holds the totals of its members, and is named and placed after the first of them. */
  ghost predicate IsGroupOf(g: Group, members: seq<PodState>, nodes: seq<NodeCapacity>) {
    && members != []
    && HasTotals(g, members)
    && var first := EmptyGroup(members[0], nodes);
       g.namespace == first.namespace && g.kind == first.kind && g.name == first.name &&
       g.nodeCpu == first.nodeCpu && g.nodeMemory == first.nodeMemory
  }

  ghost function GroupOf(members: seq<PodState>, nodes: seq<NodeCapacity>): (g: Group)
    requires members != []
    ensures IsGroupOf(g, members, nodes)
    ensures forall h :: IsGroupOf(h, members, nodes) ==> h == g
  {
    EmptyGroup(members[0], nodes)
    .(podCount := |members|,
    cpuRequest := SumBy(CpuRequestOf, members),
    memoryRequest := SumBy(MemoryRequestOf, members),
    cpuPeak := SumBy(PeakCpu, members),
    memoryPeak := SumBy(PeakMemory, members),
    historical := exists p :: p in members && UsesHistory(p))
  }

  function Grown(g: Group, p: PodState): Group {
    g.(podCount := g.podCount + 1,
    cpuRequest := g.cpuRequest + p.cpuRequest,
    memoryRequest := g.memoryRequest + p.memoryRequest,
    cpuPeak := g.cpuPeak + PeakCpu(p),
    memoryPeak := g.memoryPeak + PeakMemory(p),
    historical := g.historical || UsesHistory(p))
  }

  lemma GrownTotals(g: Group, members: seq<PodState>, p: PodState)
    requires HasTotals(g, members)
    ensures HasTotals(Grown(g, p), members + [p])
  {
  }

  class OwnerGroup {
    const namespace: string
    const kind: string
    const name: string
    const nodeCpu: int
    const nodeMemory: int
    var podCount: nat
    var cpuRequest: nat
    var memoryRequest: nat
    var cpuPeak: nat
    var memoryPeak: nat
    var historical: bool

    ghost function View(): Group
      reads this
    {
      Group(namespace, kind, name, podCount, cpuRequest, memoryRequest, cpuPeak, memoryPeak, historical,
            nodeCpu, nodeMemory)
    }

    constructor (namespace: string, kind: string, name: string, nodeCpu: int, nodeMemory: int)
      ensures View() == Group(namespace, kind, name, 0, 0, 0, 0, 0, false, nodeCpu, nodeMemory)
    {
      this.namespace, this.kind, this.name := namespace, kind, name;
      this.nodeCpu, this.nodeMemory := nodeCpu, nodeMemory;
      podCount, cpuRequest, memoryRequest, cpuPeak, memoryPeak := 0, 0, 0, 0, 0;
      historical := false;
    }

    method Add(p: PodState, cpu: nat, memory: nat, usedHistory: bool)
      requires cpu == PeakCpu(p) && memory == PeakMemory(p) && usedHistory == UsesHistory(p)
      modifies this
      ensures View() == Grown(old(View()), p)
    {
      podCount := podCount + 1;
      cpuRequest := cpuRequest + p.cpuRequest;
      memoryRequest := memoryRequest + p.memoryRequest;
      cpuPeak := cpuPeak + cpu;
      memoryPeak := memoryPeak + memory;
      if usedHistory {
        historical := true;
      }
    }
  }

  type Owners = map<string, OwnerGroup>

  ghost function Objects(owners: Owners): set<object> {
    set k | k in owners :: owners[k]
  }

  ghost function Views(owners: Owners): map<string, Group>
    reads Objects(owners)
  {
    map k | k in owners :: owners[k].View()
  }

  ghost predicate Separate(owners: Owners) {
    forall k, l | k in owners && l in owners && k != l :: owners[k] != owners[l]
  }

  ghost predicate IsGroupAt(groups: map<string, Group>, key: string, members: seq<PodState>, nodes: seq<NodeCapacity>) {
    && (key in groups <==> members != [])
    && (key in groups ==> IsGroupOf(groups[key], members, nodes))
  }

  /** There is a group for every key with members, and it is theirs. */
  ghost predicate AreGroups(groups: map<string, Group>, pods: seq<PodState>, nodes: seq<NodeCapacity>) {
    forall k :: IsGroupAt(groups, k, Members(pods, k), nodes)
  }

  lemma MembersAfter(pods: seq<PodState>, p: PodState, key: string)
    ensures Members(pods + [p], key)
         == if IsCounted(p) && GroupKey(p) == key then Members(pods, key) + [p] else Members(pods, key)
  {
    assert (pods + [p])[..|pods|] == pods;
  }

  lemma SkippingKeepsGroups(groups: map<string, Group>, pods: seq<PodState>, nodes: seq<NodeCapacity>, p: PodState)
    requires AreGroups(groups, pods, nodes) && !IsCounted(p)
    ensures AreGroups(groups, pods + [p], nodes)
  {
    forall k ensures Members(pods + [p], k) == Members(pods, k) {
      MembersAfter(pods, p, k);
    }
  }

  /** The group a pod is added to, which is an empty one when its key is new. */
  function Before(groups: map<string, Group>, p: PodState, nodes: seq<NodeCapacity>): Group {
    if GroupKey(p) in groups then groups[GroupKey(p)] else EmptyGroup(p, nodes)
  }

  lemma GrownIsGroup(g: Group, members: seq<PodState>, nodes: seq<NodeCapacity>, p: PodState)
    requires if members == [] then g == EmptyGroup(p, nodes) else IsGroupOf(g, members, nodes)
    ensures IsGroupOf(Grown(g, p), members + [p], nodes)
  {
    GrownTotals(g, members, p);
  }

  lemma AddingAt(groups: map<string, Group>, members: seq<PodState>, nodes: seq<NodeCapacity>, p: PodState, key: string)
    requires key == GroupKey(p) && IsGroupAt(groups, key, members, nodes)
    ensures IsGroupAt(groups[key := Grown(Before(groups, p, nodes), p)], key, members + [p], nodes)
  {
    GrownIsGroup(Before(groups, p, nodes), members, nodes, p);
  }

  function AfterAdding(groups: map<string, Group>, p: PodState, nodes: seq<NodeCapacity>): map<string, Group> {
    groups[GroupKey(p) := Grown(Before(groups, p, nodes), p)]
  }

  lemma AddingKeepsGroupAt(groups: map<string, Group>, pods: seq<PodState>, nodes: seq<NodeCapacity>, p: PodState, k: string)
    requires IsCounted(p) && IsGroupAt(groups, k, Members(pods, k), nodes)
    ensures IsGroupAt(AfterAdding(groups, p, nodes), k, Members(pods + [p], k), nodes)
  {
    MembersAfter(pods, p, k);
    if k == GroupKey(p) {
      AddingAt(groups, Members(pods, k), nodes, p, k);
    }
  }

  lemma AddingKeepsGroups(groups: map<string, Group>, pods: seq<PodState>, nodes: seq<NodeCapacity>, p: PodState)
    requires AreGroups(groups, pods, nodes) && IsCounted(p)
    ensures AreGroups(AfterAdding(groups, p, nodes), pods + [p], nodes)
  {
    forall k ensures IsGroupAt(AfterAdding(groups, p, nodes), k, Members(pods + [p], k), nodes) {
      AddingKeepsGroupAt(groups, pods, nodes, p, k);
    }
  }

  ghost predicate Indexes(byName: map<string, NodeCapacity>, nodes: seq<NodeCapacity>) {
    forall name :: (if name in byName then byName[name] else NodeCapacity(name, 0, 0)) == CapacityOf(nodes, name)
  }

  method IndexNodes(nodes: seq<NodeCapacity>) returns (byName: map<string, NodeCapacity>)
    ensures Indexes(byName, nodes)
  {
    byName := map[];
    for i := 0 to |nodes|
      invariant Indexes(byName, nodes[..i])
    {
      assert nodes[..i + 1][..i] == nodes[..i];
      byName := byName[nodes[i].name := nodes[i]];
    }
    assert nodes[..|nodes|] == nodes;
  }

  method NewGroup(p: PodState, kind: string, name: string, byName: map<string, NodeCapacity>, ghost nodes: seq<NodeCapacity>)
    returns (g: OwnerGroup)
    requires Indexes(byName, nodes)
    requires EmptyGroup(p, nodes).kind == kind && EmptyGroup(p, nodes).name == name
    ensures fresh(g) && g.View() == EmptyGroup(p, nodes)
  {
    var cpu, memory := 0, 0;
    if p.pod.Some? && p.pod.value.nodeName in byName {
      cpu, memory := byName[p.pod.value.nodeName].cpu, byName[p.pod.value.nodeName].memory;
    }
    g := new OwnerGroup(p.namespace, kind, name, cpu, memory);
  }

  /** The group of a pod's owner, which is created when it is missing. */
  method FindGroup(owners: Owners, p: PodState, byName: map<string, NodeCapacity>, ghost nodes: seq<NodeCapacity>)
    returns (r: Owners, g: OwnerGroup)
    requires Separate(owners) && Indexes(byName, nodes)
    ensures Separate(r) && fresh(Objects(r) - Objects(owners))
    ensures GroupKey(p) in r && r[GroupKey(p)] == g
    ensures Views(r) == Views(owners)[GroupKey(p) := Before(Views(owners), p, nodes)]
  {
    var kind, name := p.ownerKind, p.ownerName;
    if name == "" {
      kind, name := "Pod", p.name;
    }
    var key := JoinKey(p.namespace, kind, name);
    r := owners;
    if key !in owners {
      var empty := NewGroup(p, kind, name, byName, nodes);
      r := owners[key := empty];
    }
    g := r[key];
  }

  /** Adding a pod to one of the groups leaves the others as they were. */
  method AddToGroup(ghost owners: Owners, ghost key: string, g: OwnerGroup, p: PodState, cpu: nat, memory: nat, historical: bool)
    requires Separate(owners) && key in owners && owners[key] == g
    requires cpu == PeakCpu(p) && memory == PeakMemory(p) && historical == UsesHistory(p)
    modifies g
    ensures Views(owners) == old(Views(owners))[key := Grown(old(g.View()), p)]
  {
    g.Add(p, cpu, memory, historical);
    assert forall k | k in owners && k != key :: owners[k].View() == old(owners[k].View());
  }

  method TakePod(
      owners: Owners, p: PodState, cpu: nat, memory: nat, historical: bool,
      byName: map<string, NodeCapacity>, ghost nodes: seq<NodeCapacity>)
    returns (r: Owners)
    requires Separate(owners) && Indexes(byName, nodes)
    requires cpu == PeakCpu(p) && memory == PeakMemory(p) && historical == UsesHistory(p)
    modifies Objects(owners)
    ensures Separate(r) && fresh(Objects(r) - Objects(owners))
    ensures Views(r) == AfterAdding(old(Views(owners)), p, nodes)
  {
    ghost var key, before := GroupKey(p), Views(owners);
    var g;
    r, g := FindGroup(owners, p, byName, nodes);
    assert Views(r)[key] == Before(before, p, nodes);
    AddToGroup(r, key, g, p, cpu, memory, historical);
  }

  method GroupPods(nodes: seq<NodeCapacity>, pods: seq<PodState>) returns (owners: Owners)
    ensures Separate(owners) && fresh(Objects(owners))
    ensures AreGroups(Views(owners), pods, nodes)
  {
    var byName := IndexNodes(nodes);
    owners := map[];
    for i := 0 to |pods|
      invariant Separate(owners) && fresh(Objects(owners))
      invariant AreGroups(Views(owners), pods[..i], nodes)
    {
      var p := pods[i];
      assert pods[..i + 1] == pods[..i] + [p];
      if !IsEligible(p) {
        SkippingKeepsGroups(Views(owners), pods[..i], nodes, p);
        continue;
      }
      var cpu, memory, historical := FindPeaks(p);
      if cpu as real / p.cpuRequest as real >= 0.5 {
        SkippingKeepsGroups(Views(owners), pods[..i], nodes, p);
        continue;
      }
      AddingKeepsGroups(Views(owners), pods[..i], nodes, p);
      owners := TakePod(owners, p, cpu, memory, historical, byName, nodes);
    }
    assert pods[..|pods|] == pods;
  }

  // ---- Sizes ---------------------------------------------------------------

  /** Averages per pod, suggested sizes, and the monthly savings over all pods. */
  datatype Sizing = Sizing(cpuRequest: nat, memoryRequest: nat, cpu: int, memory: int, savings: real)

  /** More than half of the CPU that is requested is unused, by at least half a millicore in every pod. */
  predicate UsesUnderHalf(g: Group) {
    g.podCount > 0 && 2 * g.cpuPeak + g.podCount <= g.cpuRequest && g.podCount <= g.memoryRequest
  }

  function Mean(sum: nat, n: nat): nat
    requires n > 0
  {
    sum / n
  }

  function Min(a: int, b: int): int {
    if a < b then a else b
  }

  function Scaled(x: nat, ratio: real): int {
    (x as real * ratio).Floor
  }

  function TargetCpu(request: nat): nat {
    Max(MIN_CPU, Scaled(request, MIN_KEEP_RATIO))
  }

  /** `x` times the ratio of two amounts, rounded down. */
  function Proportion(x: nat, a: int, b: int): int
    requires b > 0
  {
    (x as real * (a as real / b as real)).Floor
  }

  /** Memory in the proportion of the node, or, without a node, reduced like the CPU. */
  function IdealMemory(g: Group, cpu: nat): int
    requires g.podCount > 0 && Mean(g.cpuRequest, g.podCount) > 0
  {
    if g.nodeCpu > 0 && g.nodeMemory > 0 then Proportion(cpu, g.nodeMemory, g.nodeCpu)
    else Proportion(Mean(g.memoryRequest, g.podCount), cpu, Mean(g.cpuRequest, g.podCount))
  }

  function MemoryFloor(g: Group): int
    requires g.podCount > 0
  {
    Max(MIN_MEMORY, Scaled(Mean(g.memoryPeak, g.podCount), HEADROOM))
  }

  function Savings(cpuDelta: int, memoryDelta: int, n: nat): real {
    (cpuDelta as real / 1000.0 * VCPU_HOURLY * HOURS_PER_MONTH + memoryDelta as real / GIB as real * GIB_HOURLY * HOURS_PER_MONTH)
    * n as real
  }

  lemma MeanIsPositive(sum: nat, n: nat)
    requires 0 < n <= sum
    ensures Mean(sum, n) > 0
  {
  }

  /** A mean is the largest integer whose product with the number is not above the sum. */
  lemma MeanBounds(sum: nat, n: nat)
    requires n > 0
    ensures Mean(sum, n) * n <= sum < (Mean(sum, n) + 1) * n
  {
  }

  lemma TimesKeepsOrder(a: nat, b: nat, n: nat)
    ensures a <= b ==> a * n <= b * n
  {
  }

  lemma MeanStaysUnderHalf(peak: nat, request: nat, n: nat)
    requires n > 0 && 2 * peak + n <= request
    ensures 2 * Mean(peak, n) < Mean(request, n)
  {
    MeanBounds(peak, n);
    MeanBounds(request, n);
    TimesKeepsOrder(Mean(request, n), 2 * Mean(peak, n), n);
  }

  /** The floor derived from the usage never exceeds what must be kept of the request. */
  lemma UsageFloorNeverBinds(g: Group)
    requires UsesUnderHalf(g)
    ensures Scaled(Mean(g.cpuPeak, g.podCount), HEADROOM) <= Scaled(Mean(g.cpuRequest, g.podCount), MIN_KEEP_RATIO)
  {
    MeanStaysUnderHalf(g.cpuPeak, g.cpuRequest, g.podCount);
  }

  lemma TimesAtLeast(x: real, y: real, n: nat)
    requires x >= y
    ensures x * n as real >= y * n as real
  {
  }

  /** Two GiB less memory already saves more than the least amount worth reporting, so that amount decides nothing. */
  lemma MemoryAloneSavesEnough(cpuDelta: nat, memoryDelta: nat, n: nat)
    requires memoryDelta >= MIN_MEMORY_DELTA && n > 0
    ensures Savings(cpuDelta, memoryDelta, n) >= 6.18 * n as real >= MIN_SAVINGS
  {
    assert memoryDelta as real / GIB as real >= 2.0;
    TimesAtLeast(cpuDelta as real / 1000.0 * VCPU_HOURLY * HOURS_PER_MONTH
                 + memoryDelta as real / GIB as real * GIB_HOURLY * HOURS_PER_MONTH, 6.18, n);
  }

  /** What is suggested for a group, if anything. */
  function Suggestion(g: Group): Option<Sizing>
    requires UsesUnderHalf(g)
  {
    MeanIsPositive(g.cpuRequest, g.podCount);
    var cpuRequest, memoryRequest := Mean(g.cpuRequest, g.podCount), Mean(g.memoryRequest, g.podCount);
    var cpu := TargetCpu(cpuRequest);
    var memory := Max(IdealMemory(g, cpu), MemoryFloor(g));
    if cpuRequest > MIN_CPU && memory + MIN_MEMORY_DELTA <= memoryRequest then
      Some(Sizing(cpuRequest, memoryRequest, cpu, memory, Savings(cpuRequest - cpu, memoryRequest - memory, g.podCount)))
    else
      None
  }

  method SuggestCpu(cpuRequest: nat, cpuPeak: nat) returns (cpu: int)
    requires Scaled(cpuPeak, HEADROOM) <= Scaled(cpuRequest, MIN_KEEP_RATIO)
    ensures cpu == TargetCpu(cpuRequest)
  {
    var cpuFloor := Scaled(cpuPeak, HEADROOM);
    var cpuMinKeep := Scaled(cpuRequest, MIN_KEEP_RATIO);
    if cpuFloor < cpuMinKeep {
      cpuFloor := cpuMinKeep;
    }
    if cpuFloor < 10 {
      cpuFloor := 10;
    }
    if cpuFloor < MIN_CPU {
      cpuFloor := MIN_CPU;
    }
    cpu := cpuFloor;
  }

  method SuggestMemory(g: OwnerGroup, cpuRequest: nat, memoryRequest: nat, memoryPeak: nat, cpu: nat) returns (memory: int)
    requires g.podCount > 0 && cpuRequest > 0
    requires cpuRequest == Mean(g.cpuRequest, g.podCount) && memoryRequest == Mean(g.memoryRequest, g.podCount)
    requires memoryPeak == Mean(g.memoryPeak, g.podCount)
    ensures memory == Min(Max(IdealMemory(g.View(), cpu), MemoryFloor(g.View())), memoryRequest)
  {
    var memFloor := Scaled(memoryPeak, HEADROOM);
    if memFloor < MIN_MEMORY {
      memFloor := MIN_MEMORY;
    }
    if g.nodeCpu > 0 && g.nodeMemory > 0 {
      memory := Proportion(cpu, g.nodeMemory, g.nodeCpu);
      if memory < memFloor {
        memory := memFloor;
      }
      if memory > memoryRequest {
        memory := memoryRequest;
      }
    } else {
      memory := Proportion(memoryRequest, cpu, cpuRequest);
      if memory < memFloor {
        memory := memFloor;
      }
      if memory > memoryRequest {
        memory := memoryRequest;
      }
    }
  }

  lemma LittleSavedIsLittleMemory(cpuDelta: nat, memoryDelta: int, n: nat)
    requires n > 0
    ensures Savings(cpuDelta, memoryDelta, n) < MIN_SAVINGS ==> memoryDelta < MIN_MEMORY_DELTA
  {
    if memoryDelta >= MIN_MEMORY_DELTA {
      MemoryAloneSavesEnough(cpuDelta, memoryDelta, n);
    }
  }

  lemma NoCpuNoSuggestion(g: Group)
    requires UsesUnderHalf(g) && TargetCpu(Mean(g.cpuRequest, g.podCount)) >= Mean(g.cpuRequest, g.podCount)
    ensures Suggestion(g) == None
  {
  }

  function Decision(cpuRequest: nat, memoryRequest: nat, cpu: int, memory: int, n: nat): Option<Sizing> {
    if memoryRequest - memory >= MIN_MEMORY_DELTA then
      Some(Sizing(cpuRequest, memoryRequest, cpu, memory, Savings(cpuRequest - cpu, memoryRequest - memory, n)))
    else None
  }

  /** The suggestion, from memory that is capped by the request. */
  lemma SuggestionFrom(g: Group, memory: int)
    requires UsesUnderHalf(g) && Mean(g.cpuRequest, g.podCount) > 0
    requires var cpu := TargetCpu(Mean(g.cpuRequest, g.podCount));
             memory == Min(Max(IdealMemory(g, cpu), MemoryFloor(g)), Mean(g.memoryRequest, g.podCount))
    ensures var cpuRequest, memoryRequest := Mean(g.cpuRequest, g.podCount), Mean(g.memoryRequest, g.podCount);
            Suggestion(g) ==
            if TargetCpu(cpuRequest) < cpuRequest
            then Decision(cpuRequest, memoryRequest, TargetCpu(cpuRequest), memory, g.podCount) else None
  {
  }

  /** Savings and memory must both be worth it; of the two tests the second decides. */
  method SuggestIfWorthwhile(cpuRequest: nat, memoryRequest: nat, cpu: nat, memory: int, n: nat) returns (r: Option<Sizing>)
    requires n > 0 && cpu < cpuRequest
    ensures r == Decision(cpuRequest, memoryRequest, cpu, memory, n)
  {
    var savings := Savings(cpuRequest - cpu, memoryRequest - memory, n);
    LittleSavedIsLittleMemory(cpuRequest - cpu, memoryRequest - memory, n);
    if savings < MIN_SAVINGS {
      return None;
    }
    if memoryRequest - memory < MIN_MEMORY_DELTA {
      return None;
    }
    r := Some(Sizing(cpuRequest, memoryRequest, cpu, memory, savings));
  }

  method SizeGroup(g: OwnerGroup) returns (r: Option<Sizing>)
    requires UsesUnderHalf(g.View())
    ensures r == Suggestion(g.View())
  {
    var cpuRequest, memoryRequest := Mean(g.cpuRequest, g.podCount), Mean(g.memoryRequest, g.podCount);
    var cpuPeak, memoryPeak := Mean(g.cpuPeak, g.podCount), Mean(g.memoryPeak, g.podCount);
    MeanIsPositive(g.cpuRequest, g.podCount);
    if cpuRequest == 0 || memoryRequest == 0 {
      MeanIsPositive(g.memoryRequest, g.podCount);
      return None;
    }
    UsageFloorNeverBinds(g.View());
    var cpu := SuggestCpu(cpuRequest, cpuPeak);
    if cpu >= cpuRequest {
      NoCpuNoSuggestion(g.View());
      return None;
    }
    var memory := SuggestMemory(g, cpuRequest, memoryRequest, memoryPeak, cpu);
    SuggestionFrom(g.View(), memory);
    r := SuggestIfWorthwhile(cpuRequest, memoryRequest, cpu, memory, g.podCount);
  }

  // ---- Recommendations -----------------------------------------------------

  datatype Recommendation = Recommendation(
    key: string,
    namespace: string,
    kind: string,
    name: string,
    podCount: nat,
    sizing: Sizing,
    confidence: real)

  function Active(p: PodState): nat {
    if p.cpuUsage > 0 || p.memoryUsage > 0 then 1 else 0
  }

  /** More than a tenth of the pods report usage. */
  predicate HasMetrics(pods: seq<PodState>) {
    SumBy(Active, pods) > |pods| / 10
  }

  /** The positions of the pods with CPU or memory usage. */
  ghost function Reporting(pods: seq<PodState>): set<nat> {
    set i: nat | i < |pods| && (pods[i].cpuUsage > 0 || pods[i].memoryUsage > 0)
  }

  lemma {:induction false} ActiveIsReporting(pods: seq<PodState>)
    ensures SumBy(Active, pods) == |Reporting(pods)|
  {
    if pods == [] {
      assert Reporting(pods) == {};
    } else {
      var last := |pods| - 1;
      ActiveIsReporting(pods[..last]);
      assert Reporting(pods) == Reporting(pods[..last]) + if Active(pods[last]) == 1 then {last} else {};
    }
  }

  /** Rounding the tenth down changes nothing. */
  lemma HasMetricsIff(pods: seq<PodState>)
    ensures HasMetrics(pods) <==> 10 * |Reporting(pods)| > |pods|
  {
    ActiveIsReporting(pods);
  }

  method CheckMetrics(pods: seq<PodState>) returns (b: bool)
    ensures b <==> HasMetrics(pods)
  {
    var count := 0;
    for i := 0 to |pods|
      invariant count == SumBy(Active, pods[..i])
    {
      assert pods[..i + 1] == pods[..i] + [pods[i]];
      SumByPush(Active, pods[..i], pods[i]);
      if pods[i].cpuUsage > 0 || pods[i].memoryUsage > 0 {
        count := count + 1;
      }
    }
    assert pods[..|pods|] == pods;
    b := count > |pods| / 10;
  }

  function Advice(key: string, g: Group): Option<Recommendation>
    requires UsesUnderHalf(g)
  {
    match Suggestion(g)
    case None => None
    case Some(s) =>
      Some(Recommendation(key, g.namespace, g.kind, g.name, g.podCount, s, if g.historical then 0.9 else 0.7))
  }

  /** The recommendation for the pods with the given key, if there are such pods and it is worth one. */
  ghost function AdviceFor(pods: seq<PodState>, nodes: seq<NodeCapacity>, key: string): Option<Recommendation> {
    var members := Members(pods, key);
    if members == [] then None
    else
      GroupsUseUnderHalf(pods, key, nodes);
      Advice(key, GroupOf(members, nodes))
  }

  /** Exactly the recommendations for the keys in `keys`, one for each, in any order. */
  ghost predicate IsAdvice(recs: seq<Recommendation>, pods: seq<PodState>, nodes: seq<NodeCapacity>, keys: set<string>) {
    && (forall i, j | 0 <= i < j < |recs| :: recs[i].key != recs[j].key)
    && (forall r | r in recs :: r.key in keys && AdviceFor(pods, nodes, r.key) == Some(r))
    && (forall k | k in keys && AdviceFor(pods, nodes, k).Some? :: AdviceFor(pods, nodes, k).value in recs)
  }

  lemma {:induction false} SumsUnderHalf(members: seq<PodState>)
    requires forall p | p in members :: IsCounted(p)
    ensures 2 * SumBy(PeakCpu, members) + |members| <= SumBy(CpuRequestOf, members)
    ensures |members| <= SumBy(MemoryRequestOf, members)
  {
    if members != [] {
      SumsUnderHalf(members[..|members| - 1]);
      CountedUsesLessThanHalf(members[|members| - 1]);
    }
  }

  /** What holds of every counted pod holds of the totals of every group. */
  lemma GroupsUseUnderHalf(pods: seq<PodState>, key: string, nodes: seq<NodeCapacity>)
    requires Members(pods, key) != []
    ensures UsesUnderHalf(GroupOf(Members(pods, key), nodes))
  {
    forall p ensures p in Members(pods, key) ==> IsCounted(p) {
      MembersAreCounted(pods, key, p);
    }
    SumsUnderHalf(Members(pods, key));
  }

  method Recommend(key: string, g: OwnerGroup) returns (r: Option<Recommendation>)
    requires UsesUnderHalf(g.View())
    ensures r == Advice(key, g.View())
  {
    var sizing := SizeGroup(g);
    if sizing.None? {
      return None;
    }
    var confidence := 0.7;
    if g.historical {
      confidence := 0.9;
    }
    r := Some(Recommendation(key, g.namespace, g.kind, g.name, g.podCount, sizing.value, confidence));
  }

  lemma NoAdviceForKey(
      recs: seq<Recommendation>, pods: seq<PodState>, nodes: seq<NodeCapacity>, keys: set<string>, key: string)
    requires IsAdvice(recs, pods, nodes, keys) && AdviceFor(pods, nodes, key).None?
    ensures IsAdvice(recs, pods, nodes, keys + {key})
  {
  }

  lemma OneMoreKey(
      recs: seq<Recommendation>, pods: seq<PodState>, nodes: seq<NodeCapacity>, keys: set<string>, r: Recommendation)
    requires IsAdvice(recs, pods, nodes, keys) && r.key !in keys && AdviceFor(pods, nodes, r.key) == Some(r)
    ensures IsAdvice(recs + [r], pods, nodes, keys + {r.key})
  {
    var after := recs + [r];
    assert forall x :: x in after <==> x in recs || x == r;
    forall i, j | 0 <= i < j < |after| ensures after[i].key != after[j].key {
      assert after[i] in recs && after[i].key in keys;
    }
  }

  /** The keys of the owners that have counted pods. */
  ghost function OwnerKeys(pods: seq<PodState>): set<string> {
    set p | p in pods && IsCounted(p) :: GroupKey(p)
  }

  lemma OwnersHaveMembers(pods: seq<PodState>, key: string)
    ensures Members(pods, key) != [] <==> key in OwnerKeys(pods)
  {
  }

  lemma KeysOfGroups(groups: map<string, Group>, pods: seq<PodState>, nodes: seq<NodeCapacity>)
    requires AreGroups(groups, pods, nodes)
    ensures groups.Keys == OwnerKeys(pods)
  {
    forall k ensures k in groups <==> k in OwnerKeys(pods) {
      assert IsGroupAt(groups, k, Members(pods, k), nodes);
      OwnersHaveMembers(pods, k);
    }
  }

  lemma AdviceOfGroup(groups: map<string, Group>, pods: seq<PodState>, nodes: seq<NodeCapacity>, key: string)
    requires AreGroups(groups, pods, nodes) && key in groups
    ensures UsesUnderHalf(groups[key]) && AdviceFor(pods, nodes, key) == Advice(key, groups[key])
  {
    assert IsGroupAt(groups, key, Members(pods, key), nodes);
    GroupsUseUnderHalf(pods, key, nodes);
  }

  method RecommendAll(owners: Owners, ghost pods: seq<PodState>, ghost nodes: seq<NodeCapacity>)
    returns (recs: seq<Recommendation>)
    requires AreGroups(Views(owners), pods, nodes)
    ensures IsAdvice(recs, pods, nodes, OwnerKeys(pods))
  {
    recs := [];
    var keys := owners.Keys;
    while keys != {}
      invariant keys <= owners.Keys
      invariant IsAdvice(recs, pods, nodes, owners.Keys - keys)
      decreases |keys|
    {
      var key :| key in keys;
      AdviceOfGroup(Views(owners), pods, nodes, key);
      var r := Recommend(key, owners[key]);
      assert owners.Keys - (keys - {key}) == owners.Keys - keys + {key};
      if r.Some? {
        OneMoreKey(recs, pods, nodes, owners.Keys - keys, r.value);
        recs := recs + [r.value];
      } else {
        NoAdviceForKey(recs, pods, nodes, owners.Keys - keys, key);
      }
      keys := keys - {key};
    }
    KeysOfGroups(Views(owners), pods, nodes);
    assert owners.Keys - {} == OwnerKeys(pods);
  }

  method AppendPodRightsizing(recs: seq<Recommendation>, nodes: seq<NodeCapacity>, pods: seq<PodState>)
    returns (r: seq<Recommendation>)
    ensures !HasMetrics(pods) ==> r == recs
    ensures HasMetrics(pods) ==> recs <= r && IsAdvice(r[|recs|..], pods, nodes, OwnerKeys(pods))
  {
    var hasMetrics := CheckMetrics(pods);
    if !hasMetrics {
      return recs;
    }
    var owners := GroupPods(nodes, pods);
    var added := RecommendAll(owners, pods, nodes);
    r := recs + added;
    assert r[|recs|..] == added;
  }

  // ---- What every recommendation promises ----------------------------------

  /** Although averages are rounded down, the suggested CPU of all pods together covers their peaks with the headroom. */
  lemma CpuCoversPeaks(g: Group)
    requires UsesUnderHalf(g) && Mean(g.cpuRequest, g.podCount) > MIN_CPU
    ensures (TargetCpu(Mean(g.cpuRequest, g.podCount)) * g.podCount) as real >= HEADROOM * g.cpuPeak as real
  {
    var n, a := g.podCount, Mean(g.cpuRequest, g.podCount);
    MeanBounds(g.cpuRequest, n);
    TargetExceedsShare(a);
    ShareOfAll(TargetCpu(a), a + 1, n);
  }

  /** What is kept is more than 0.6 of the request, even of one that is a millicore larger. */
  lemma TargetExceedsShare(request: nat)
    requires request > MIN_CPU
    ensures 10 * TargetCpu(request) >= 6 * (request + 1)
  {
  }

  lemma ShareOfAll(cpu: nat, request: nat, n: nat)
    requires 10 * cpu >= 6 * request
    ensures 10 * (cpu * n) >= 6 * (request * n)
  {
    TimesKeepsOrder(6 * request, 10 * cpu, n);
    assert 6 * request * n == 6 * (request * n) && 10 * cpu * n == 10 * (cpu * n);
  }

  lemma SuggestionIsSafe(g: Group, s: Sizing)
    requires UsesUnderHalf(g) && Suggestion(g) == Some(s)
    ensures s.cpuRequest == Mean(g.cpuRequest, g.podCount) && s.memoryRequest == Mean(g.memoryRequest, g.podCount)
    ensures s.cpu == Max(MIN_CPU, Scaled(s.cpuRequest, MIN_KEEP_RATIO)) < s.cpuRequest
    ensures (s.cpu * g.podCount) as real >= HEADROOM * g.cpuPeak as real
    ensures s.memory >= Scaled(Mean(g.memoryPeak, g.podCount), HEADROOM)
    ensures s.memoryRequest - s.memory >= MIN_MEMORY_DELTA
    ensures s.savings >= 6.18 * g.podCount as real
  {
    CpuCoversPeaks(g);
    MemoryAloneSavesEnough(s.cpuRequest - s.cpu, s.memoryRequest - s.memory, g.podCount);
  }

  /** A product with a ratio, rounded down, is the least integer whose successor exceeds it. */
  lemma ProportionIsLeast(x: nat, a: nat, b: nat, bound: int)
    requires b > 0
    ensures Proportion(x, a, b) <= bound <==> x * a < (bound + 1) * b
  {
    var q := x as real * (a as real / b as real);
    RealOfProduct(x, a);
    RealOfProduct(bound + 1, b);
    TimesDivisor(x as real, a as real, b as real);
    if q < (bound + 1) as real {
      KeepsOrder(q, (bound + 1) as real, b as real);
    } else {
      KeepsOrder((bound + 1) as real, q, b as real);
    }
  }

  lemma TimesDivisor(x: real, a: real, b: real)
    requires b > 0.0
    ensures x * (a / b) * b == x * a
  {
  }

  lemma KeepsOrder(x: real, y: real, b: real)
    requires b > 0.0
    ensures x < y ==> x * b < y * b
    ensures x == y ==> x * b == y * b
  {
  }

  /**
   So much memory is at least 32 MiB, covers the average peak with the headroom, and falls less than a byte short of the
   node's own proportion of memory to CPU; without a node, of the proportion that is requested.
   */
  predicate IsEnoughMemory(g: Group, cpu: nat, x: int)
    requires g.podCount > 0
  {
    && x >= 32 * 1024 * 1024
    && x >= Scaled(Mean(g.memoryPeak, g.podCount), 1.2)
    && if g.nodeCpu > 0 && g.nodeMemory > 0 then cpu * g.nodeMemory < (x + 1) * g.nodeCpu
       else Mean(g.memoryRequest, g.podCount) * cpu < (x + 1) * Mean(g.cpuRequest, g.podCount)
  }

  lemma MemoryIsLeastFor(g: Group, cpu: nat, x: int)
    requires g.podCount > 0 && Mean(g.cpuRequest, g.podCount) > 0
    ensures Max(IdealMemory(g, cpu), MemoryFloor(g)) <= x <==> IsEnoughMemory(g, cpu, x)
  {
    if g.nodeCpu > 0 && g.nodeMemory > 0 {
      ProportionIsLeast(cpu, g.nodeMemory, g.nodeCpu, x);
    } else {
      ProportionIsLeast(Mean(g.memoryRequest, g.podCount), cpu, Mean(g.cpuRequest, g.podCount), x);
    }
  }

  /** The suggested memory is the least that is enough. */
  lemma MemoryIsLeast(g: Group, s: Sizing, x: int)
    requires UsesUnderHalf(g) && Suggestion(g) == Some(s)
    ensures s.memory <= x <==> IsEnoughMemory(g, s.cpu, x)
  {
    MeanIsPositive(g.cpuRequest, g.podCount);
    MemoryIsLeastFor(g, s.cpu, x);
  }

  /** Something is suggested exactly when more than a core is requested and two GiB less are still enough memory. */
  lemma SuggestedIff(g: Group)
    requires UsesUnderHalf(g)
    ensures var cpuRequest, memoryRequest := Mean(g.cpuRequest, g.podCount), Mean(g.memoryRequest, g.podCount);
            Suggestion(g).Some? <==>
            cpuRequest > 1000 && IsEnoughMemory(g, Max(1000, Scaled(cpuRequest, 0.7)), memoryRequest - 2 * 1024 * 1024 * 1024)
  {
    MeanIsPositive(g.cpuRequest, g.podCount);
    var cpuRequest, memoryRequest := Mean(g.cpuRequest, g.podCount), Mean(g.memoryRequest, g.podCount);
    MemoryIsLeastFor(g, TargetCpu(cpuRequest), memoryRequest - MIN_MEMORY_DELTA);
  }

  /** So for every recommendation, where the node is that of the owner's first pod. */
  lemma AdvisedMemoryIsLeast(
      recs: seq<Recommendation>, pods: seq<PodState>, nodes: seq<NodeCapacity>, r: Recommendation, x: int)
    requires IsAdvice(recs, pods, nodes, OwnerKeys(pods)) && r in recs
    ensures var members := Members(pods, r.key);
            && members != []
            && (r.sizing.memory <= x <==> IsEnoughMemory(GroupOf(members, nodes), r.sizing.cpu, x))
  {
    var members := Members(pods, r.key);
    assert AdviceFor(pods, nodes, r.key) == Some(r);
    GroupsUseUnderHalf(pods, r.key, nodes);
    MemoryIsLeast(GroupOf(members, nodes), r.sizing, x);
  }

  lemma MonthlyRate(cores: real, gibs: real, n: real)
    ensures (cores * VCPU_HOURLY * HOURS_PER_MONTH + gibs * GIB_HOURLY * HOURS_PER_MONTH) * n
         == 730.5 * (0.031611 * cores + 0.004237 * gibs) * n
  {
    assert cores * VCPU_HOURLY * HOURS_PER_MONTH + gibs * GIB_HOURLY * HOURS_PER_MONTH
        == 730.5 * (0.031611 * cores + 0.004237 * gibs);
  }

  /** What so many pods cost in a month of 730.5 hours for the part of a vCPU and the part of a GiB that they give up. */
  function MonthOf(milli: int, bytes: int, n: nat): real {
    730.5 * (0.031611 * (milli as real / 1000.0) + 0.004237 * (bytes as real / (1024 * 1024 * 1024) as real)) * n as real
  }

  lemma SavingsAreMonthly(milli: int, bytes: int, n: nat)
    ensures Savings(milli, bytes, n) == MonthOf(milli, bytes, n)
  {
    MonthlyRate(milli as real / 1000.0, bytes as real / GIB as real, n as real);
  }

  lemma SuggestedSavings(g: Group, s: Sizing)
    requires UsesUnderHalf(g) && Suggestion(g) == Some(s)
    ensures s.savings == Savings(s.cpuRequest - s.cpu, s.memoryRequest - s.memory, g.podCount)
  {
  }

  /** The pod's owner has this kind and name; a pod without a named owner owns itself. */
  predicate IsOwnedBy(p: PodState, kind: string, name: string) {
    if p.ownerName != "" then p.ownerKind == kind && p.ownerName == name else kind == "Pod" && p.name == name
  }

  predicate HasPlainNames(p: PodState) {
    '/' !in p.namespace && '/' !in p.ownerKind
  }

  lemma KeyIsOwner(p: PodState, kind: string, name: string)
    requires IsOwnedBy(p, kind, name)
    ensures GroupKey(p) == p.namespace + "/" + (kind + "/" + name)
  {
  }

  lemma OwnerExists(p: PodState) returns (kind: string, name: string)
    ensures IsOwnedBy(p, kind, name) && (HasPlainNames(p) ==> '/' !in kind)
  {
    if p.ownerName != "" {
      kind, name := p.ownerKind, p.ownerName;
    } else {
      kind, name := "Pod", p.name;
    }
  }

  /** Pods have one key exactly when they are in one namespace and have one owner. */
  lemma SameKeyIffSameOwner(p: PodState, q: PodState, kind: string, name: string)
    requires HasPlainNames(p) && HasPlainNames(q) && IsOwnedBy(q, kind, name)
    ensures GroupKey(p) == GroupKey(q) <==> p.namespace == q.namespace && IsOwnedBy(p, kind, name)
  {
    var pKind, pName := OwnerExists(p);
    KeyIsOwner(p, pKind, pName);
    KeyIsOwner(q, kind, name);
    if GroupKey(p) == GroupKey(q) {
      PrefixBeforeSlash(p.namespace, q.namespace, pKind + "/" + pName, kind + "/" + name);
      SuffixAfterSlash(p.namespace, pKind + "/" + pName, kind + "/" + name);
      PrefixBeforeSlash(pKind, kind, pName, name);
      SuffixAfterSlash(pKind, pName, name);
    }
  }

  /** A recommendation is for exactly the counted pods of the namespace and the owner that it names. */
  lemma AdviceNamesItsPods(
      recs: seq<Recommendation>, pods: seq<PodState>, nodes: seq<NodeCapacity>, r: Recommendation, p: PodState)
    requires IsAdvice(recs, pods, nodes, OwnerKeys(pods)) && r in recs
    requires forall q | q in pods :: HasPlainNames(q)
    ensures p in Members(pods, r.key) <==>
            p in pods && IsCounted(p) && p.namespace == r.namespace && IsOwnedBy(p, r.kind, r.name)
  {
    var first := FirstMember(recs, pods, nodes, r);
    MembersAreCounted(pods, r.key, p);
    if p in pods {
      SameKeyIffSameOwner(p, first, r.kind, r.name);
    }
  }

  lemma FirstMember(recs: seq<Recommendation>, pods: seq<PodState>, nodes: seq<NodeCapacity>, r: Recommendation)
    returns (first: PodState)
    requires IsAdvice(recs, pods, nodes, OwnerKeys(pods)) && r in recs
    ensures first in pods && GroupKey(first) == r.key
    ensures r.namespace == first.namespace && IsOwnedBy(first, r.kind, r.name)
  {
    assert AdviceFor(pods, nodes, r.key) == Some(r);
    first := Members(pods, r.key)[0];
    MembersAreCounted(pods, r.key, first);
    GroupsUseUnderHalf(pods, r.key, nodes);
  }

  /** The confidence is 0.9 when the windows of some pod counted, and 0.7 otherwise. */
  lemma AdvisedConfidence(recs: seq<Recommendation>, pods: seq<PodState>, nodes: seq<NodeCapacity>, r: Recommendation)
    requires IsAdvice(recs, pods, nodes, OwnerKeys(pods)) && r in recs
    ensures r.confidence == if exists p :: p in Members(pods, r.key) && UsesHistory(p) then 0.9 else 0.7
  {
    assert AdviceFor(pods, nodes, r.key) == Some(r);
    GroupsUseUnderHalf(pods, r.key, nodes);
  }

  /** The savings of a recommendation are a month of what each of its pods gives up. */
  lemma AdvisedSavings(recs: seq<Recommendation>, pods: seq<PodState>, nodes: seq<NodeCapacity>, r: Recommendation)
    requires IsAdvice(recs, pods, nodes, OwnerKeys(pods)) && r in recs
    ensures var s := r.sizing;
            s.savings == MonthOf(s.cpuRequest - s.cpu, s.memoryRequest - s.memory, r.podCount)
  {
    assert AdviceFor(pods, nodes, r.key) == Some(r);
    GroupsUseUnderHalf(pods, r.key, nodes);
    var s := r.sizing;
    SuggestedSavings(GroupOf(Members(pods, r.key), nodes), s);
    SavingsAreMonthly(s.cpuRequest - s.cpu, s.memoryRequest - s.memory, r.podCount);
  }

  /**
   Every recommendation suggests exactly the kept part of the average CPU request, or one core; enough CPU for the
   peaks of the pods it is for; enough memory for their average peak, with two GiB less than they request; and saves
   at least 6.18 a month for each of them.
   */
  lemma AdviceIsSafe(recs: seq<Recommendation>, pods: seq<PodState>, nodes: seq<NodeCapacity>, r: Recommendation)
    requires IsAdvice(recs, pods, nodes, OwnerKeys(pods)) && r in recs
    ensures var members := Members(pods, r.key);
            var s := r.sizing;
            && r.podCount == |members| > 0
            && s.cpuRequest == Mean(SumBy(CpuRequestOf, members), |members|)
            && s.memoryRequest == Mean(SumBy(MemoryRequestOf, members), |members|)
            && s.cpu == Max(1000, Scaled(s.cpuRequest, 0.7)) < s.cpuRequest
            && (s.cpu * |members|) as real >= 1.2 * SumBy(PeakCpu, members) as real
            && s.memory >= Scaled(Mean(SumBy(PeakMemory, members), |members|), 1.2)
            && s.memoryRequest - s.memory >= 2 * 1024 * 1024 * 1024
            && s.savings >= 6.18 * |members| as real
  {
    var members := Members(pods, r.key);
    assert AdviceFor(pods, nodes, r.key) == Some(r);
    GroupsUseUnderHalf(pods, r.key, nodes);
    SuggestionIsSafe(GroupOf(members, nodes), r.sizing);
  }
}
