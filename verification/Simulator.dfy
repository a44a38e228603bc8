/**
 The scheduling simulator: would this pod fit on this node?
 Tests are predicates; every loop that accumulates is a method proved against a specification that is not the loop.
 */
module Simulator {
  import opened Wrappers
  import opened Totals
  import opened Cluster

  datatype SimulationResult = SimulationResult(feasible: bool, nodeName: string, reason: string)

  /** What the caller passes beyond the target node: nothing, or the node list and the pods on every node. */
  datatype View = LocalView | ClusterView(nodes: seq<Node>, pods: PodsByNode)

  // ---- Taints -------------------------------------------------------------

  predicate TolerationMatchesTaint(t: Toleration, taint: Taint) {
    if t.operator == OP_EXISTS && t.key == "" then true
    else if t.key != taint.key then false
    else if t.effect != "" && t.effect != taint.effect then false
    else if t.operator == OP_EXISTS then true
    else t.value == taint.value
  }

  predicate ToleratesTaints(pod: Pod, taints: seq<Taint>) {
    forall taint | taint in taints && taint.effect in [NO_SCHEDULE, NO_EXECUTE] ::
      exists t | t in pod.tolerations :: TolerationMatchesTaint(t, taint)
  }

  /** Key, effect and value each agree or are left open; a toleration of all keys leaves the effect open too. */
  predicate Covers(t: Toleration, taint: Taint) {
    var anyKey := t.operator == OP_EXISTS && t.key == "";
    && (anyKey || t.key == taint.key)
    && (anyKey || t.effect == "" || t.effect == taint.effect)
    && (t.operator == OP_EXISTS || t.value == taint.value)
  }

  /** A pod goes to a node with these taints exactly when each one that keeps pods away is covered. */
  lemma ToleratesIffCovered(pod: Pod, taints: seq<Taint>)
    ensures ToleratesTaints(pod, taints) <==>
            forall taint | taint in taints && (taint.effect == "NoSchedule" || taint.effect == "NoExecute") ::
              exists t | t in pod.tolerations :: Covers(t, taint)
  {
    forall t, taint ensures Covers(t, taint) <==> TolerationMatchesTaint(t, taint) {}
  }

  // ---- Resources ----------------------------------------------------------

  /** The effective request: containers run together, init containers one after the other before them. */
  function Effective(of: Resources -> nat, pod: Pod): nat {
    Max(SumBy(of, pod.containers), MaxBy(of, pod.initContainers))
  }

  function PodCpu(pod: Pod): nat { Effective(CpuOf, pod) }

  function PodMemory(pod: Pod): nat { Effective(MemoryOf, pod) }

  function PodGpu(pod: Pod): nat { Effective(GpuOf, pod) }

  /** So much is enough for all containers at once, and for every init container on its own. */
  predicate Suffices(of: Resources -> nat, pod: Pod, amount: nat) {
    SumBy(of, pod.containers) <= amount && forall ic | ic in pod.initContainers :: of(ic) <= amount
  }

  /** The effective request is the least amount that suffices. */
  lemma EffectiveIsLeast(of: Resources -> nat, pod: Pod, amount: nat)
    ensures Effective(of, pod) <= amount <==> Suffices(of, pod, amount)
  {
    MaxByIsLeast(of, pod.initContainers, amount);
  }

  method EffectivePodResources(pod: Pod) returns (cpuMilli: nat, memBytes: nat)
    ensures cpuMilli == PodCpu(pod)
    ensures memBytes == PodMemory(pod)
    ensures forall amount: nat :: cpuMilli <= amount <==> Suffices(CpuOf, pod, amount)
    ensures forall amount: nat :: memBytes <= amount <==> Suffices(MemoryOf, pod, amount)
  {
    cpuMilli, memBytes := 0, 0;
    for i := 0 to |pod.containers|
      invariant cpuMilli == SumBy(CpuOf, pod.containers[..i])
      invariant memBytes == SumBy(MemoryOf, pod.containers[..i])
    {
      assert pod.containers[..i + 1][..i] == pod.containers[..i];
      var c := pod.containers[i];
      if c.cpu.Some? {
        cpuMilli := cpuMilli + c.cpu.value;
      }
      if c.memory.Some? {
        memBytes := memBytes + c.memory.value;
      }
    }
    assert pod.containers[..|pod.containers|] == pod.containers;
    ghost var cpuSum, memSum := cpuMilli, memBytes;
    for i := 0 to |pod.initContainers|
      invariant cpuMilli == Max(cpuSum, MaxBy(CpuOf, pod.initContainers[..i]))
      invariant memBytes == Max(memSum, MaxBy(MemoryOf, pod.initContainers[..i]))
    {
      assert pod.initContainers[..i + 1][..i] == pod.initContainers[..i];
      var ic := pod.initContainers[i];
      var icCpu, icMem := ic.cpu.GetOr(0), ic.memory.GetOr(0);
      if icCpu > cpuMilli {
        cpuMilli := icCpu;
      }
      if icMem > memBytes {
        memBytes := icMem;
      }
    }
    assert pod.initContainers[..|pod.initContainers|] == pod.initContainers;
    forall amount: nat ensures cpuMilli <= amount <==> Suffices(CpuOf, pod, amount) {
      EffectiveIsLeast(CpuOf, pod, amount);
    }
    forall amount: nat ensures memBytes <= amount <==> Suffices(MemoryOf, pod, amount) {
      EffectiveIsLeast(MemoryOf, pod, amount);
    }
  }

  method PodGpuRequest(pod: Pod) returns (total: nat)
    ensures total == PodGpu(pod)
    ensures forall amount: nat :: total <= amount <==> Suffices(GpuOf, pod, amount)
  {
    total := 0;
    for i := 0 to |pod.containers|
      invariant total == SumBy(GpuOf, pod.containers[..i])
    {
      assert pod.containers[..i + 1][..i] == pod.containers[..i];
      if pod.containers[i].gpu.Some? {
        total := total + pod.containers[i].gpu.value;
      }
    }
    assert pod.containers[..|pod.containers|] == pod.containers;
    ghost var sum := total;
    for i := 0 to |pod.initContainers|
      invariant total == Max(sum, MaxBy(GpuOf, pod.initContainers[..i]))
    {
      assert pod.initContainers[..i + 1][..i] == pod.initContainers[..i];
      var ic := pod.initContainers[i];
      if ic.gpu.Some? && ic.gpu.value > total {
        total := ic.gpu.value;
      }
    }
    assert pod.initContainers[..|pod.initContainers|] == pod.initContainers;
    forall amount: nat ensures total <= amount <==> Suffices(GpuOf, pod, amount) {
      EffectiveIsLeast(GpuOf, pod, amount);
    }
  }

  /** Room for the pod beside the existing ones; GPUs only matter to a pod that asks for some. */
  predicate EnoughResources(pod: Pod, node: Node, existing: seq<Pod>) {
    && SumBy(PodCpu, existing) + PodCpu(pod) <= CpuOf(node.allocatable)
    && SumBy(PodMemory, existing) + PodMemory(pod) <= MemoryOf(node.allocatable)
    && (PodGpu(pod) > 0 ==> SumBy(PodGpu, existing) + PodGpu(pod) <= GpuOf(node.allocatable))
  }

  method HasEnoughResources(pod: Pod, node: Node, existing: seq<Pod>) returns (ok: bool)
    ensures ok <==> EnoughResources(pod, node, existing)
  {
    var cpuCap, memCap := node.allocatable.cpu.GetOr(0), node.allocatable.memory.GetOr(0);
    var usedCpu, usedMem, usedGpu := 0, 0, 0;
    for i := 0 to |existing|
      invariant usedCpu == SumBy(PodCpu, existing[..i])
      invariant usedMem == SumBy(PodMemory, existing[..i])
      invariant usedGpu == SumBy(PodGpu, existing[..i])
    {
      assert existing[..i + 1][..i] == existing[..i];
      var pCpu, pMem := EffectivePodResources(existing[i]);
      var pGpu := PodGpuRequest(existing[i]);
      usedCpu, usedMem, usedGpu := usedCpu + pCpu, usedMem + pMem, usedGpu + pGpu;
    }
    assert existing[..|existing|] == existing;
    var podCpu, podMem := EffectivePodResources(pod);
    var podGpu := PodGpuRequest(pod);
    if usedCpu + podCpu > cpuCap || usedMem + podMem > memCap {
      return false;
    }
    if podGpu > 0 {
      var gpuCap := node.allocatable.gpu.GetOr(0);
      if usedGpu + podGpu > gpuCap {
        return false;
      }
    }
    return true;
  }

  // ---- Node selectors and node affinity -----------------------------------

  predicate IsDigits(s: string) {
    forall i | 0 <= i < |s| :: '0' <= s[i] <= '9'
  }

  function DigitsValue(s: string): nat
    requires IsDigits(s)
  {
    if s == [] then 0 else DigitsValue(s[..|s| - 1]) * 10 + (s[|s| - 1] as int - '0' as int)
  }

  /** A decimal integer with an optional sign that fits in 64 bits. */
  function ParseInt(s: string): Option<int> {
    var digits := if s != [] && s[0] in "+-" then s[1..] else s;
    if digits == [] || !IsDigits(digits) then None
    else
      var magnitude: int := DigitsValue(digits);
      var v := if s[0] == '-' then -magnitude else magnitude;
      if -0x8000_0000_0000_0000 <= v < 0x8000_0000_0000_0000 then Some(v) else None
  }

  /** Lexicographic order on strings. */
  predicate StringLess(a: string, b: string) {
    if b == [] then false
    else if a == [] then true
    else if a[0] != b[0] then a[0] < b[0]
    else StringLess(a[1..], b[1..])
  }

  /** `a` less than `b` as integers when both parse, as strings otherwise. */
  predicate ValueLess(a: string, b: string) {
    match (ParseInt(a), ParseInt(b))
    case (Some(x), Some(y)) => x < y
    case _ => StringLess(a, b)
  }

  predicate MatchesNodeSelectorRequirement(req: Requirement, labels: Labels) {
    var exists_ := req.key in labels;
    if req.operator == OP_IN then exists_ && labels[req.key] in req.values
    else if req.operator == OP_NOT_IN then !exists_ || labels[req.key] !in req.values
    else if req.operator == OP_EXISTS then exists_
    else if req.operator == OP_DOES_NOT_EXIST then !exists_
    else if req.operator == OP_GT then
      exists_ && req.values != [] && ValueLess(req.values[0], labels[req.key])
    else if req.operator == OP_LT then
      exists_ && req.values != [] && ValueLess(labels[req.key], req.values[0])
    else false
  }

  predicate MatchesNodeSelectorField(req: Requirement, node: Node) {
    if req.key != METADATA_NAME then true
    else if req.operator == OP_IN then node.name in req.values
    else if req.operator == OP_NOT_IN then node.name !in req.values
    else true
  }

  predicate MatchesNodeSelectorTerm(term: NodeSelectorTerm, node: Node) {
    && (forall req | req in term.expressions :: MatchesNodeSelectorRequirement(req, node.labels))
    && (forall req | req in term.fields :: MatchesNodeSelectorField(req, node))
  }

  predicate MatchesNodeSelector(pod: Pod, node: Node) {
    forall k | k in pod.nodeSelector :: Labelled(node, k, pod.nodeSelector[k])
  }

  predicate MatchesNodeAffinity(pod: Pod, node: Node) {
    match pod.nodeAffinity
    case None => true
    case Some(terms) => exists term | term in terms :: MatchesNodeSelectorTerm(term, node)
  }

  // ---- Pod affinity and anti-affinity -------------------------------------

  /** A pod label, empty when the pod lacks the key. */
  function LabelOf(pod: Pod, key: string): string {
    if key in pod.labels then pod.labels[key] else ""
  }

  predicate MatchesTermExpression(pod: Pod, expr: Requirement) {
    var exists_ := expr.key in pod.labels;
    if expr.operator == OP_IN then LabelOf(pod, expr.key) in expr.values
    else if expr.operator == OP_NOT_IN then !exists_ || pod.labels[expr.key] !in expr.values
    else if expr.operator == OP_EXISTS then exists_
    else if expr.operator == OP_DOES_NOT_EXIST then !exists_
    else true
  }

  predicate MatchesAllLabels(pod: Pod, wanted: Labels) {
    forall k | k in wanted :: LabelOf(pod, k) == wanted[k]
  }

  predicate PodMatchesAffinityTerm(pod: Pod, term: PodAffinityTerm) {
    && term.selector.Some?
    && (term.namespaces != [] ==> pod.namespace in term.namespaces)
    && (forall expr | expr in term.selector.value.expressions :: MatchesTermExpression(pod, expr))
    && MatchesAllLabels(pod, term.selector.value.matchLabels)
  }

  predicate AnyMatches(pods: seq<Pod>, term: PodAffinityTerm) {
    exists p | p in pods :: PodMatchesAffinityTerm(p, term)
  }

  /** Some pod in the domain of `node` under the term's key matches; without a cluster view the domain is the node. */
  predicate DomainHasMatch(term: PodAffinityTerm, node: Node, existing: seq<Pod>, view: View)
    requires term.topologyKey in node.labels
  {
    match view
    case LocalView => AnyMatches(existing, term)
    case ClusterView(nodes, pods) =>
      exists n | n in nodes ::
        Labelled(n, term.topologyKey, node.labels[term.topologyKey]) && AnyMatches(PodsOn(pods, n.name), term)
  }

  predicate AffinityTermHolds(term: PodAffinityTerm, node: Node, existing: seq<Pod>, view: View) {
    term.topologyKey != "" ==>
      term.topologyKey in node.labels && DomainHasMatch(term, node, existing, view)
  }

  predicate AntiAffinityTermHolds(term: PodAffinityTerm, node: Node, existing: seq<Pod>, view: View) {
    term.topologyKey != "" && term.topologyKey in node.labels ==> !DomainHasMatch(term, node, existing, view)
  }

  predicate SatisfiesPodAffinity(pod: Pod, node: Node, existing: seq<Pod>, view: View) {
    forall term | term in pod.affinity :: AffinityTermHolds(term, node, existing, view)
  }

  predicate SatisfiesPodAntiAffinity(pod: Pod, node: Node, existing: seq<Pod>, view: View) {
    forall term | term in pod.antiAffinity :: AntiAffinityTermHolds(term, node, existing, view)
  }

  // ---- Topology spread ----------------------------------------------------

  predicate MatchesSelectorExpression(pod: Pod, expr: Requirement) {
    if expr.operator == OP_IN then expr.key in pod.labels && pod.labels[expr.key] in expr.values
    else MatchesTermExpression(pod, expr)
  }

  predicate PodMatchesLabelSelector(pod: Pod, selector: Option<LabelSelector>) {
    match selector
    case None => true
    case Some(s) =>
      MatchesAllLabels(pod, s.matchLabels) && forall expr | expr in s.expressions :: MatchesSelectorExpression(pod, expr)
  }

  function CountMatching(pods: seq<Pod>, selector: Option<LabelSelector>): nat {
    if pods == [] then 0
    else CountMatching(pods[..|pods| - 1], selector)
         + if PodMatchesLabelSelector(pods[|pods| - 1], selector) then 1 else 0
  }

  function Domains(nodes: seq<Node>, key: string): set<string> {
    set n | n in nodes && key in n.labels :: n.labels[key]
  }

  /** Matching pods on the nodes whose label `key` is `value`. */
  function DomainCount(nodes: seq<Node>, pods: PodsByNode, key: string, selector: Option<LabelSelector>, value: string): nat {
    if nodes == [] then 0
    else
      var n := nodes[|nodes| - 1];
      DomainCount(nodes[..|nodes| - 1], pods, key, selector, value)
      + if Labelled(n, key, value) then CountMatching(PodsOn(pods, n.name), selector) else 0
  }

  predicate Enforced(c: SpreadConstraint) {
    c.whenUnsatisfiable == DO_NOT_SCHEDULE && c.topologyKey != ""
  }

  /** The count of domain `value` once one more pod is counted in domain `target`. */
  function CountAfterAdding(c: SpreadConstraint, nodes: seq<Node>, pods: PodsByNode, target: string, value: string): nat {
    DomainCount(nodes, pods, c.topologyKey, c.selector, value) + if value == target then 1 else 0
  }

  /** Any two domains would differ by at most the allowed skew with one more pod in domain `target`. */
  ghost predicate SkewAfterAdding(c: SpreadConstraint, nodes: seq<Node>, pods: PodsByNode, target: string) {
    var domains := Domains(nodes, c.topologyKey) + {target};
    forall a, b | a in domains && b in domains ::
      CountAfterAdding(c, nodes, pods, target, a) - CountAfterAdding(c, nodes, pods, target, b) <= c.maxSkew
  }

  ghost predicate SpreadHolds(c: SpreadConstraint, node: Node, existing: seq<Pod>, view: View) {
    Enforced(c) && c.topologyKey in node.labels ==>
      match view
      case LocalView => CountMatching(existing, c.selector) + 1 <= c.maxSkew + 1
      case ClusterView(nodes, pods) => SkewAfterAdding(c, nodes, pods, node.labels[c.topologyKey])
  }

  ghost predicate SatisfiesSpread(pod: Pod, node: Node, existing: seq<Pod>, view: View) {
    forall c | c in pod.spread :: SpreadHolds(c, node, existing, view)
  }

  lemma DomainsPush(nodes: seq<Node>, n: Node, key: string)
    ensures Domains(nodes + [n], key) == Domains(nodes, key) + if key in n.labels then {n.labels[key]} else {}
  {
    forall v ensures v in Domains(nodes + [n], key) <==> v in Domains(nodes, key) || Labelled(n, key, v) {
      if Labelled(n, key, v) {
        assert (nodes + [n])[|nodes|] == n;
      }
    }
  }

  /** Adds the matching pods of one node to the entry of its domain. */
  method Tally(counts: map<string, nat>, dv: string, ps: seq<Pod>, selector: Option<LabelSelector>)
    returns (r: map<string, nat>)
    ensures r == counts[dv := (if dv in counts then counts[dv] else 0) + CountMatching(ps, selector)]
  {
    r := counts;
    if dv !in r {
      r := r[dv := 0];
    }
    ghost var start := r[dv];
    for j := 0 to |ps|
      invariant r == counts[dv := start + CountMatching(ps[..j], selector)]
    {
      assert ps[..j + 1][..j] == ps[..j];
      if PodMatchesLabelSelector(ps[j], selector) {
        r := r[dv := r[dv] + 1];
      }
    }
    assert ps[..|ps|] == ps;
  }

  lemma {:induction false} OutsideDomains(nodes: seq<Node>, pods: PodsByNode, c: SpreadConstraint, v: string)
    ensures v !in Domains(nodes, c.topologyKey) ==> DomainCount(nodes, pods, c.topologyKey, c.selector, v) == 0
  {
    if nodes != [] {
      var n := nodes[|nodes| - 1];
      DomainsPush(nodes[..|nodes| - 1], n, c.topologyKey);
      assert nodes == nodes[..|nodes| - 1] + [n];
      OutsideDomains(nodes[..|nodes| - 1], pods, c, v);
    }
  }

  /** The domain map: one entry a domain, each holding the matching pods found there. */
  ghost predicate IsTally(counts: map<string, nat>, c: SpreadConstraint, nodes: seq<Node>, pods: PodsByNode) {
    && counts.Keys == Domains(nodes, c.topologyKey)
    && forall v | v in counts :: counts[v] == DomainCount(nodes, pods, c.topologyKey, c.selector, v)
  }

  lemma TallyOneNode(counts: map<string, nat>, c: SpreadConstraint, nodes: seq<Node>, n: Node, pods: PodsByNode)
    requires IsTally(counts, c, nodes, pods)
    ensures c.topologyKey !in n.labels ==> IsTally(counts, c, nodes + [n], pods)
    ensures c.topologyKey in n.labels ==>
              var dv := n.labels[c.topologyKey];
              var seen := CountMatching(PodsOn(pods, n.name), c.selector);
              IsTally(counts[dv := (if dv in counts then counts[dv] else 0) + seen], c, nodes + [n], pods)
  {
    DomainsPush(nodes, n, c.topologyKey);
    assert (nodes + [n])[..|nodes|] == nodes;
    if c.topologyKey in n.labels {
      OutsideDomains(nodes, pods, c, n.labels[c.topologyKey]);
    }
  }

  method CountDomains(c: SpreadConstraint, nodes: seq<Node>, pods: PodsByNode) returns (counts: map<string, nat>)
    ensures IsTally(counts, c, nodes, pods)
  {
    counts := map[];
    for i := 0 to |nodes|
      invariant IsTally(counts, c, nodes[..i], pods)
    {
      var n := nodes[i];
      assert nodes[..i + 1] == nodes[..i] + [n];
      TallyOneNode(counts, c, nodes[..i], n, pods);
      if c.topologyKey in n.labels {
        counts := Tally(counts, n.labels[c.topologyKey], PodsOn(pods, n.name), c.selector);
      }
    }
    assert nodes[..|nodes|] == nodes;
  }

  /** Smallest and largest count, whatever order the map is walked in; the domain map is never empty. */
  method MinMaxCount(counts: map<string, nat>) returns (minCount: nat, maxCount: nat)
    requires counts != map[]
    ensures minCount in counts.Values && maxCount in counts.Values
    ensures forall v | v in counts :: minCount <= counts[v] <= maxCount
  {
    minCount, maxCount := 0, 0;
    var first := true;
    var todo := counts.Keys;
    while todo != {}
      invariant todo <= counts.Keys
      invariant first <==> todo == counts.Keys
      invariant !first ==> minCount in counts.Values && maxCount in counts.Values
      invariant forall v | v in counts.Keys - todo :: minCount <= counts[v] <= maxCount
      decreases todo
    {
      var v :| v in todo;
      todo := todo - {v};
      var count := counts[v];
      if first {
        minCount, maxCount := count, count;
        first := false;
      } else {
        if count < minCount {
          minCount := count;
        }
        if count > maxCount {
          maxCount := count;
        }
      }
    }
  }

  method SatisfiesTopologySpreadConstraints(pod: Pod, node: Node, existing: seq<Pod>, view: View) returns (ok: bool)
    ensures ok <==> SatisfiesSpread(pod, node, existing, view)
  {
    for i := 0 to |pod.spread|
      invariant forall j | 0 <= j < i :: SpreadHolds(pod.spread[j], node, existing, view)
    {
      var c := pod.spread[i];
      if c.whenUnsatisfiable != DO_NOT_SCHEDULE || c.topologyKey == "" || c.topologyKey !in node.labels {
        continue;
      }
      var target := node.labels[c.topologyKey];
      match view {
        case ClusterView(nodes, pods) =>
          var counts := CountDomains(c, nodes, pods);
          counts := counts[target := (if target in counts then counts[target] else 0) + 1];
          OutsideDomains(nodes, pods, c, target);
          assert forall v | v in counts :: counts[v] == CountAfterAdding(c, nodes, pods, target, v);
          assert counts.Keys == Domains(nodes, c.topologyKey) + {target};
          var minCount, maxCount := MinMaxCount(counts);
          if maxCount - minCount > c.maxSkew {
            ghost var a :| a in counts && counts[a] == maxCount;
            ghost var b :| b in counts && counts[b] == minCount;
            assert CountAfterAdding(c, nodes, pods, target, a) - CountAfterAdding(c, nodes, pods, target, b) > c.maxSkew;
            assert !SpreadHolds(c, node, existing, view);
            return false;
          }
          assert SpreadHolds(c, node, existing, view);
        case LocalView =>
          var matchCount := 0;
          for j := 0 to |existing|
            invariant matchCount == CountMatching(existing[..j], c.selector)
          {
            assert existing[..j + 1][..j] == existing[..j];
            if PodMatchesLabelSelector(existing[j], c.selector) {
              matchCount := matchCount + 1;
            }
          }
          assert existing[..|existing|] == existing;
          if matchCount + 1 > c.maxSkew + 1 {
            assert !SpreadHolds(c, node, existing, view);
            return false;
          }
      }
    }
    return true;
  }

  // ---- The whole test -----------------------------------------------------

  predicate NodeIsReady(node: Node) {
    forall c | c in node.conditions :: c.kind == NODE_READY ==> c.status == CONDITION_TRUE
  }

  /** The checks that do not look at other pods and are not about resources. */
  predicate NodeAccepts(pod: Pod, node: Node) {
    && NodeIsReady(node)
    && !node.unschedulable
    && ToleratesTaints(pod, node.taints)
    && MatchesNodeSelector(pod, node)
    && MatchesNodeAffinity(pod, node)
  }

  /** Ready, not cordoned, every taint that keeps pods away covered, labelled as the pod selects, and one term matching. */
  lemma AcceptsIff(pod: Pod, node: Node)
    ensures NodeAccepts(pod, node) <==>
            && !(exists c | c in node.conditions :: c.kind == "Ready" && c.status != "True")
            && node.unschedulable == false
            && (forall taint | taint in node.taints && (taint.effect == "NoSchedule" || taint.effect == "NoExecute") ::
                  exists t | t in pod.tolerations :: Covers(t, taint))
            && (forall k | k in pod.nodeSelector :: k in node.labels && node.labels[k] == pod.nodeSelector[k])
            && (pod.nodeAffinity.Some? ==>
                  exists term | term in pod.nodeAffinity.value :: MatchesNodeSelectorTerm(term, node))
  {
    ToleratesIffCovered(pod, node.taints);
    assert NodeIsReady(node) <==> !(exists c | c in node.conditions :: c.kind == "Ready" && c.status != "True");
  }

  /** A constraint that may be broken, has no key, or has a key that the node lacks, keeps no pod away. */
  lemma SoftConstraintsAllow(c: SpreadConstraint, node: Node, existing: seq<Pod>, view: View)
    requires c.whenUnsatisfiable != "DoNotSchedule" || c.topologyKey == "" || c.topologyKey !in node.labels
    ensures SpreadHolds(c, node, existing, view)
  {
  }

  /** With only the node's own pods in view, the allowed skew bounds the matching pods that are there already. */
  lemma LocalSpreadIff(c: SpreadConstraint, node: Node, existing: seq<Pod>)
    requires c.whenUnsatisfiable == "DoNotSchedule" && c.topologyKey != "" && c.topologyKey in node.labels
    ensures SpreadHolds(c, node, existing, LocalView) <==> CountMatching(existing, c.selector) <= c.maxSkew
  {
  }

  ghost predicate Fits(pod: Pod, node: Node, existing: seq<Pod>, view: View) {
    && NodeAccepts(pod, node)
    && EnoughResources(pod, node, existing)
    && SatisfiesPodAffinity(pod, node, existing, view)
    && SatisfiesPodAntiAffinity(pod, node, existing, view)
    && SatisfiesSpread(pod, node, existing, view)
  }

  /** The reason of the first check that fails, in the order in which they are made. */
  ghost function FirstFailure(pod: Pod, node: Node, existing: seq<Pod>, view: View): string {
    if !NodeIsReady(node) then "node not ready"
    else if node.unschedulable then "node is cordoned"
    else if !ToleratesTaints(pod, node.taints) then "pod does not tolerate node taints"
    else if !EnoughResources(pod, node, existing) then "insufficient resources"
    else if !MatchesNodeSelector(pod, node) then "node selector mismatch"
    else if !MatchesNodeAffinity(pod, node) then "node affinity mismatch"
    else if !SatisfiesPodAffinity(pod, node, existing, view) then "pod affinity not satisfied"
    else if !SatisfiesPodAntiAffinity(pod, node, existing, view) then "pod anti-affinity conflict"
    else if !SatisfiesSpread(pod, node, existing, view) then "topology spread constraint violation"
    else ""
  }

  /** There is a reason exactly when the pod does not fit. */
  lemma NoReasonIffFits(pod: Pod, node: Node, existing: seq<Pod>, view: View)
    ensures FirstFailure(pod, node, existing, view) == "" <==> Fits(pod, node, existing, view)
  {
  }

  method CanScheduleWithTopology(pod: Pod, node: Node, existing: seq<Pod>, view: View) returns (r: SimulationResult)
    ensures r.feasible <==> Fits(pod, node, existing, view)
    ensures r.nodeName == if r.feasible then node.name else ""
    ensures r.reason == FirstFailure(pod, node, existing, view)
  {
    if !NodeIsReady(node) {
      return SimulationResult(false, "", "node not ready");
    }
    if node.unschedulable {
      return SimulationResult(false, "", "node is cordoned");
    }
    if !ToleratesTaints(pod, node.taints) {
      return SimulationResult(false, "", "pod does not tolerate node taints");
    }
    var enough := HasEnoughResources(pod, node, existing);
    if !enough {
      return SimulationResult(false, "", "insufficient resources");
    }
    if !MatchesNodeSelector(pod, node) {
      return SimulationResult(false, "", "node selector mismatch");
    }
    if !MatchesNodeAffinity(pod, node) {
      return SimulationResult(false, "", "node affinity mismatch");
    }
    if !SatisfiesPodAffinity(pod, node, existing, view) {
      return SimulationResult(false, "", "pod affinity not satisfied");
    }
    if !SatisfiesPodAntiAffinity(pod, node, existing, view) {
      return SimulationResult(false, "", "pod anti-affinity conflict");
    }
    var spread := SatisfiesTopologySpreadConstraints(pod, node, existing, view);
    if !spread {
      return SimulationResult(false, "", "topology spread constraint violation");
    }
    return SimulationResult(true, node.name, "");
  }

  method CanSchedule(pod: Pod, node: Node, existing: seq<Pod>) returns (r: SimulationResult)
    ensures r.feasible <==> Fits(pod, node, existing, LocalView)
    ensures r.nodeName == if r.feasible then node.name else ""
    ensures r.reason == FirstFailure(pod, node, existing, LocalView)
  {
    r := CanScheduleWithTopology(pod, node, existing, LocalView);
  }

  /** The view of a search: the whole cluster, or nothing when the caller's map of pods is nil. */
  function ViewOf(nodes: seq<Node>, pods: Option<PodsByNode>): View {
    match pods
    case Some(p) => ClusterView(nodes, p)
    case None => LocalView
  }

  function ExistingOn(pods: Option<PodsByNode>, name: string): seq<Pod> {
    PodsOn(pods.GetOr(map[]), name)
  }

  ghost predicate FitsIn(pod: Pod, node: Node, nodes: seq<Node>, pods: Option<PodsByNode>) {
    Fits(pod, node, ExistingOn(pods, node.name), ViewOf(nodes, pods))
  }

  /** Every fitting node once, in list order: the chosen positions increase and leave no fitting node out. */
  ghost predicate IsFittingList(fitting: seq<string>, at: seq<nat>, pod: Pod, nodes: seq<Node>, upTo: nat, pods: Option<PodsByNode>)
    requires upTo <= |nodes|
  {
    && |at| == |fitting|
    && (forall i | 0 <= i < |at| :: at[i] < upTo && fitting[i] == nodes[at[i]].name && FitsIn(pod, nodes[at[i]], nodes, pods))
    && (forall i, j | 0 <= i < j < |at| :: at[i] < at[j])
    && (forall k | 0 <= k < upTo && FitsIn(pod, nodes[k], nodes, pods) :: k in at)
  }

  lemma FittingListNames(fitting: seq<string>, at: seq<nat>, pod: Pod, nodes: seq<Node>, pods: Option<PodsByNode>)
    requires IsFittingList(fitting, at, pod, nodes, |nodes|, pods)
    ensures forall name :: name in fitting <==> exists n | n in nodes :: n.name == name && FitsIn(pod, n, nodes, pods)
  {
  }

  method FindFittingNodes(pod: Pod, nodes: seq<Node>, pods: Option<PodsByNode>) returns (fitting: seq<string>, ghost at: seq<nat>)
    ensures IsFittingList(fitting, at, pod, nodes, |nodes|, pods)
    ensures forall name :: name in fitting <==> exists n | n in nodes :: n.name == name && FitsIn(pod, n, nodes, pods)
  {
    fitting, at := [], [];
    for i := 0 to |nodes|
      invariant IsFittingList(fitting, at, pod, nodes, i, pods)
    {
      var node := nodes[i];
      var result := CanScheduleWithTopology(pod, node, ExistingOn(pods, node.name), ViewOf(nodes, pods));
      assert result.feasible <==> FitsIn(pod, node, nodes, pods);
      if result.feasible {
        ghost var before := at;
        fitting, at := fitting + [node.name], at + [i];
        assert at[|before|] == i && forall k | k in before :: k in at;
      }
    }
    FittingListNames(fitting, at, pod, nodes, pods);
  }

  ghost predicate FitsNowhere(pod: Pod, nodes: seq<Node>, pods: Option<PodsByNode>) {
    forall n | n in nodes :: !FitsIn(pod, n, nodes, pods)
  }

  /** The positions of the pending pods that fit on no node. */
  ghost function Stuck(pending: seq<Pod>, nodes: seq<Node>, pods: Option<PodsByNode>): set<nat> {
    set i: nat | i < |pending| && FitsNowhere(pending[i], nodes, pods)
  }

  lemma StuckPush(pending: seq<Pod>, pod: Pod, nodes: seq<Node>, pods: Option<PodsByNode>)
    ensures Stuck(pending + [pod], nodes, pods)
         == Stuck(pending, nodes, pods) + if FitsNowhere(pod, nodes, pods) then {|pending|} else {}
  {
  }

  method CountUnschedulable(pending: seq<Pod>, nodes: seq<Node>, pods: Option<PodsByNode>) returns (count: nat)
    ensures count == |Stuck(pending, nodes, pods)|
  {
    count := 0;
    for i := 0 to |pending|
      invariant count == |Stuck(pending[..i], nodes, pods)|
    {
      var fitting, at := FindFittingNodes(pending[i], nodes, pods);
      assert |fitting| == 0 <==> FitsNowhere(pending[i], nodes, pods) by {
        if |fitting| > 0 {
          assert fitting[0] in fitting;
        } else {
          assert forall n | n in nodes :: n.name !in fitting;
        }
      }
      StuckPush(pending[..i], pending[i], nodes, pods);
      assert pending[..i + 1] == pending[..i] + [pending[i]];
      if |fitting| == 0 {
        count := count + 1;
      }
    }
    assert pending[..|pending|] == pending;
  }
}
