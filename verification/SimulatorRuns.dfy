/**
 What holds over whole runs of the simulator. A cluster is a fixed list of uniquely named nodes and the pods on
 each; a step puts a pod on a node that the search returned for it, or takes a pod away.
 */
module SimulatorRuns {
  import opened Wrappers
  import opened Totals
  import opened Cluster
  import opened Simulator

  datatype Step = Place(pod: Pod, node: string) | Remove(node: string, index: nat)

  /** `name` is one of the nodes that FindFittingNodes returns for the pod. */
  ghost predicate MayPlace(pod: Pod, name: string, nodes: seq<Node>, pods: PodsByNode) {
    exists n | n in nodes :: n.name == name && FitsIn(pod, n, nodes, Some(pods))
  }

  ghost predicate Enabled(nodes: seq<Node>, pods: PodsByNode, step: Step) {
    match step
    case Place(pod, name) => MayPlace(pod, name, nodes, pods)
    case Remove(name, index) => index < |PodsOn(pods, name)|
  }

  function Apply(pods: PodsByNode, step: Step): PodsByNode {
    match step
    case Place(pod, name) => pods[name := PodsOn(pods, name) + [pod]]
    case Remove(name, index) =>
      var on := PodsOn(pods, name);
      if index < |on| then pods[name := on[..index] + on[index + 1..]] else pods
  }

  function After(start: PodsByNode, steps: seq<Step>): PodsByNode {
    if steps == [] then start else Apply(After(start, steps[..|steps| - 1]), steps[|steps| - 1])
  }

  ghost predicate IsRun(nodes: seq<Node>, start: PodsByNode, steps: seq<Step>) {
    steps != [] ==>
      IsRun(nodes, start, steps[..|steps| - 1]) &&
      Enabled(nodes, After(start, steps[..|steps| - 1]), steps[|steps| - 1])
  }

  // ---- Topology spread: skew stays bounded --------------------------------

  ghost predicate SkewBounded(nodes: seq<Node>, pods: PodsByNode, c: SpreadConstraint) {
    forall a, b | a in Domains(nodes, c.topologyKey) && b in Domains(nodes, c.topologyKey) ::
      DomainCount(nodes, pods, c.topologyKey, c.selector, a) - DomainCount(nodes, pods, c.topologyKey, c.selector, b)
      <= c.maxSkew
  }

  /** One more pod on node `at` is one more in its domain when the pod matches, and nothing anywhere else. */
  lemma {:induction false} RecountAfterPlacing(
      nodes: seq<Node>, pods: PodsByNode, at: nat, pod: Pod, c: SpreadConstraint, value: string)
    requires UniqueNames(nodes) && at < |nodes|
    ensures DomainCount(nodes, Apply(pods, Place(pod, nodes[at].name)), c.topologyKey, c.selector, value)
         == DomainCount(nodes, pods, c.topologyKey, c.selector, value)
            + if Labelled(nodes[at], c.topologyKey, value) && PodMatchesLabelSelector(pod, c.selector) then 1 else 0
  {
    var last := |nodes| - 1;
    var on := PodsOn(pods, nodes[at].name);
    assert (on + [pod])[..|on|] == on;
    if at == last {
      SameCounts(nodes[..last], pods, nodes[at].name, pod, c, value);
    } else {
      RecountAfterPlacing(nodes[..last], pods, at, pod, c, value);
    }
  }

  lemma {:induction false} SameCounts(
      nodes: seq<Node>, pods: PodsByNode, name: string, pod: Pod, c: SpreadConstraint, value: string)
    requires forall n | n in nodes :: n.name != name
    ensures DomainCount(nodes, Apply(pods, Place(pod, name)), c.topologyKey, c.selector, value)
         == DomainCount(nodes, pods, c.topologyKey, c.selector, value)
  {
    if nodes != [] {
      SameCounts(nodes[..|nodes| - 1], pods, name, pod, c, value);
    }
  }

  /** The simulated increment equals the recount after the real placement, so the bound that was checked is kept. */
  lemma PlacingKeepsSkew(nodes: seq<Node>, pods: PodsByNode, pod: Pod, name: string, c: SpreadConstraint)
    requires UniqueNames(nodes) && MayPlace(pod, name, nodes, pods)
    requires Enforced(c) && SkewBounded(nodes, pods, c)
    requires PodMatchesLabelSelector(pod, c.selector) ==> c in pod.spread
    ensures SkewBounded(nodes, Apply(pods, Place(pod, name)), c)
  {
    var at :| 0 <= at < |nodes| && nodes[at].name == name && FitsIn(pod, nodes[at], nodes, Some(pods));
    var pods' := Apply(pods, Place(pod, name));
    var key := c.topologyKey;
    forall a, b | a in Domains(nodes, key) && b in Domains(nodes, key)
      ensures DomainCount(nodes, pods', key, c.selector, a) - DomainCount(nodes, pods', key, c.selector, b) <= c.maxSkew
    {
      RecountAfterPlacing(nodes, pods, at, pod, c, a);
      RecountAfterPlacing(nodes, pods, at, pod, c, b);
      if PodMatchesLabelSelector(pod, c.selector) && key in nodes[at].labels {
        var target := nodes[at].labels[key];
        assert SpreadHolds(c, nodes[at], ExistingOn(Some(pods), name), ClusterView(nodes, pods));
        assert CountAfterAdding(c, nodes, pods, target, a) - CountAfterAdding(c, nodes, pods, target, b) <= c.maxSkew;
      }
    }
  }

  /**
   Over every run of placements in which each pod that matches the constraint's selector also carries the
   constraint, no two domains ever differ by more than the allowed skew.
   */
  lemma {:induction false} SkewStaysBounded(nodes: seq<Node>, start: PodsByNode, steps: seq<Step>, c: SpreadConstraint)
    requires UniqueNames(nodes) && IsRun(nodes, start, steps)
    requires Enforced(c) && SkewBounded(nodes, start, c)
    requires forall i | 0 <= i < |steps| :: steps[i].Place? &&
               (PodMatchesLabelSelector(steps[i].pod, c.selector) ==> c in steps[i].pod.spread)
    ensures SkewBounded(nodes, After(start, steps), c)
  {
    if steps != [] {
      var last := |steps| - 1;
      SkewStaysBounded(nodes, start, steps[..last], c);
      PlacingKeepsSkew(nodes, After(start, steps[..last]), steps[last].pod, steps[last].node, c);
    }
  }

  // ---- Anti-affinity: one member per domain -------------------------------

  /** The pod carries the anti-affinity term and is itself one of the pods the term keeps away. */
  predicate Member(pod: Pod, term: PodAffinityTerm) {
    term in pod.antiAffinity && PodMatchesAffinityTerm(pod, term)
  }

  /** No two members, at whatever positions, are on nodes with the same value of the term's key. */
  ghost predicate OneMemberPerDomain(nodes: seq<Node>, pods: PodsByNode, term: PodAffinityTerm) {
    forall m, n, i, j |
      && m in nodes && n in nodes
      && 0 <= i < |PodsOn(pods, m.name)| && 0 <= j < |PodsOn(pods, n.name)|
      && (m.name != n.name || i != j)
      && Member(PodsOn(pods, m.name)[i], term) && Member(PodsOn(pods, n.name)[j], term) ::
      !SameDomain(m, n, term.topologyKey)
  }

  predicate SameDomain(m: Node, n: Node, key: string) {
    key in m.labels && Labelled(n, key, m.labels[key])
  }

  lemma NewMemberIsAlone(nodes: seq<Node>, pods: PodsByNode, pod: Pod, at: Node, term: PodAffinityTerm, n: Node, j: nat)
    requires at in nodes && FitsIn(pod, at, nodes, Some(pods))
    requires term.topologyKey != "" && Member(pod, term)
    requires n in nodes && j < |PodsOn(pods, n.name)| && Member(PodsOn(pods, n.name)[j], term)
    ensures !SameDomain(at, n, term.topologyKey) && !SameDomain(n, at, term.topologyKey)
  {
  }

  lemma PlacedPairIsApart(
      nodes: seq<Node>, pods: PodsByNode, pod: Pod, at: Node, term: PodAffinityTerm, m: Node, n: Node, i: nat, j: nat)
    requires UniqueNames(nodes) && at in nodes && FitsIn(pod, at, nodes, Some(pods))
    requires term.topologyKey != "" && OneMemberPerDomain(nodes, pods, term)
    requires m in nodes && n in nodes && (m.name != n.name || i != j)
    requires var after := Apply(pods, Place(pod, at.name));
             i < |PodsOn(after, m.name)| && Member(PodsOn(after, m.name)[i], term) &&
             j < |PodsOn(after, n.name)| && Member(PodsOn(after, n.name)[j], term)
    ensures !SameDomain(m, n, term.topologyKey)
  {
    if i == |PodsOn(pods, m.name)| {
      assert m == at && j < |PodsOn(pods, n.name)|;
      NewMemberIsAlone(nodes, pods, pod, at, term, n, j);
    } else if j == |PodsOn(pods, n.name)| {
      assert n == at;
      NewMemberIsAlone(nodes, pods, pod, at, term, m, i);
    }
  }

  lemma PlacingKeepsMembersApart(nodes: seq<Node>, pods: PodsByNode, pod: Pod, name: string, term: PodAffinityTerm)
    requires UniqueNames(nodes) && MayPlace(pod, name, nodes, pods)
    requires term.topologyKey != "" && OneMemberPerDomain(nodes, pods, term)
    ensures OneMemberPerDomain(nodes, Apply(pods, Place(pod, name)), term)
  {
    var at :| at in nodes && at.name == name && FitsIn(pod, at, nodes, Some(pods));
    var pods' := Apply(pods, Place(pod, name));
    forall m, n, i, j |
      && m in nodes && n in nodes
      && 0 <= i < |PodsOn(pods', m.name)| && 0 <= j < |PodsOn(pods', n.name)|
      && (m.name != n.name || i != j)
      && Member(PodsOn(pods', m.name)[i], term) && Member(PodsOn(pods', n.name)[j], term)
      ensures !SameDomain(m, n, term.topologyKey)
    {
      PlacedPairIsApart(nodes, pods, pod, at, term, m, n, i, j);
    }
  }

  lemma RemovingKeepsMembersApart(nodes: seq<Node>, pods: PodsByNode, name: string, index: nat, term: PodAffinityTerm)
    requires UniqueNames(nodes) && OneMemberPerDomain(nodes, pods, term)
    ensures OneMemberPerDomain(nodes, Apply(pods, Remove(name, index)), term)
  {
    var pods' := Apply(pods, Remove(name, index));
    forall m, n, i, j |
      && m in nodes && n in nodes
      && 0 <= i < |PodsOn(pods', m.name)| && 0 <= j < |PodsOn(pods', n.name)|
      && (m.name != n.name || i != j)
      && Member(PodsOn(pods', m.name)[i], term) && Member(PodsOn(pods', n.name)[j], term)
      ensures !SameDomain(m, n, term.topologyKey)
    {
      var i0, j0 := IndexBefore(pods, name, index, m.name, i), IndexBefore(pods, name, index, n.name, j);
      assert PodsOn(pods', m.name)[i] == PodsOn(pods, m.name)[i0];
      assert PodsOn(pods', n.name)[j] == PodsOn(pods, n.name)[j0];
    }
  }

  /** Where the pod that is at position `i` of a node after a removal was before it. */
  function IndexBefore(pods: PodsByNode, name: string, index: nat, at: string, i: nat): (k: nat)
    requires i < |PodsOn(Apply(pods, Remove(name, index)), at)|
    ensures k < |PodsOn(pods, at)| && PodsOn(pods, at)[k] == PodsOn(Apply(pods, Remove(name, index)), at)[i]
  {
    if at == name && i >= index && index < |PodsOn(pods, name)| then i + 1 else i
  }

  /** Over every run of placements and removals of any pods, two members never share a domain. */
  lemma {:induction false} MembersStayApart(nodes: seq<Node>, start: PodsByNode, steps: seq<Step>, term: PodAffinityTerm)
    requires UniqueNames(nodes) && IsRun(nodes, start, steps)
    requires term.topologyKey != "" && OneMemberPerDomain(nodes, start, term)
    ensures OneMemberPerDomain(nodes, After(start, steps), term)
  {
    if steps != [] {
      var last := |steps| - 1;
      var before := After(start, steps[..last]);
      MembersStayApart(nodes, start, steps[..last], term);
      match steps[last]
      case Place(pod, name) => PlacingKeepsMembersApart(nodes, before, pod, name, term);
      case Remove(name, index) => RemovingKeepsMembersApart(nodes, before, name, index, term);
    }
  }

  // ---- Capacity: nothing is over-committed --------------------------------

  predicate FitsTogether(n: Node, on: seq<Pod>) {
    && SumBy(PodCpu, on) <= CpuOf(n.allocatable)
    && SumBy(PodMemory, on) <= MemoryOf(n.allocatable)
    && SumBy(PodGpu, on) <= GpuOf(n.allocatable)
  }

  ghost predicate WithinAllocatable(nodes: seq<Node>, pods: PodsByNode) {
    forall n | n in nodes :: FitsTogether(n, PodsOn(pods, n.name))
  }

  lemma PlacingFitsTogether(n: Node, on: seq<Pod>, pod: Pod)
    requires EnoughResources(pod, n, on) && FitsTogether(n, on)
    ensures FitsTogether(n, on + [pod])
  {
    SumByPush(PodCpu, on, pod);
    SumByPush(PodMemory, on, pod);
    SumByPush(PodGpu, on, pod);
  }

  /** There is room for a pod exactly when it and the others fit together, if GPUs are not over-committed as it is. */
  lemma RoomIffFitsTogether(n: Node, on: seq<Pod>, pod: Pod)
    requires PodGpu(pod) == 0 ==> SumBy(PodGpu, on) <= GpuOf(n.allocatable)
    ensures EnoughResources(pod, n, on) <==> FitsTogether(n, on + [pod])
  {
    SumByPush(PodCpu, on, pod);
    SumByPush(PodMemory, on, pod);
    SumByPush(PodGpu, on, pod);
  }

  lemma RemovingFitsTogether(n: Node, on: seq<Pod>, index: nat)
    requires index < |on| && FitsTogether(n, on)
    ensures FitsTogether(n, on[..index] + on[index + 1..])
  {
    SumByRemove(PodCpu, on, index);
    SumByRemove(PodMemory, on, index);
    SumByRemove(PodGpu, on, index);
  }

  lemma StepKeepsAllocatable(nodes: seq<Node>, pods: PodsByNode, step: Step)
    requires UniqueNames(nodes) && Enabled(nodes, pods, step)
    requires WithinAllocatable(nodes, pods)
    ensures WithinAllocatable(nodes, Apply(pods, step))
  {
    var on := PodsOn(pods, step.node);
    forall n | n in nodes ensures FitsTogether(n, PodsOn(Apply(pods, step), n.name)) {
      if n.name == step.node {
        match step
        case Place(pod, name) => PlacingFitsTogether(n, on, pod);
        case Remove(name, index) => RemovingFitsTogether(n, on, index);
      }
    }
  }

  /** From a cluster that is not over-committed, no run ever over-commits CPU, memory or GPUs of a node. */
  lemma {:induction false} NeverOverCommitted(nodes: seq<Node>, start: PodsByNode, steps: seq<Step>)
    requires UniqueNames(nodes) && IsRun(nodes, start, steps)
    requires WithinAllocatable(nodes, start)
    ensures WithinAllocatable(nodes, After(start, steps))
  {
    if steps != [] {
      var last := |steps| - 1;
      NeverOverCommitted(nodes, start, steps[..last]);
      StepKeepsAllocatable(nodes, After(start, steps[..last]), steps[last]);
    }
  }

  function ContainersOf(of: Resources -> nat): Pod -> nat {
    (p: Pod) => SumBy(of, p.containers)
  }

  /** On a node with room for the effective requests there is room for an init container beside all other pods. */
  lemma InitContainerHasRoom(of: Resources -> nat, on: seq<Pod>, i: nat, ic: Resources, room: nat)
    requires i < |on| && ic in on[i].initContainers
    requires SumBy((p: Pod) => Effective(of, p), on) <= room
    ensures of(ic) + SumBy(ContainersOf(of), on[..i] + on[i + 1..]) <= room
  {
    var effective := (p: Pod) => Effective(of, p);
    EffectiveIsLeast(of, on[i], Effective(of, on[i]));
    SumByRemove(effective, on, i);
    SumByMonotone(ContainersOf(of), effective, on[..i] + on[i + 1..]);
  }

  lemma SameSum<T>(f: T -> nat, g: T -> nat, s: seq<T>)
    requires forall x | x in s :: f(x) == g(x)
    ensures SumBy(f, s) == SumBy(g, s)
  {
    SumByMonotone(f, g, s);
    SumByMonotone(g, f, s);
  }

  /**
   In terms of containers: over every run, the request of any init container of a pod and those of the containers of
   all other pods on its node stay together within what is allocatable there.
   */
  lemma InitContainersStayWithin(
      nodes: seq<Node>, start: PodsByNode, steps: seq<Step>, n: Node, i: nat, ic: Resources)
    requires UniqueNames(nodes) && IsRun(nodes, start, steps) && WithinAllocatable(nodes, start)
    requires n in nodes && i < |PodsOn(After(start, steps), n.name)|
    requires ic in PodsOn(After(start, steps), n.name)[i].initContainers
    ensures var on := PodsOn(After(start, steps), n.name);
            var others := on[..i] + on[i + 1..];
            && CpuOf(ic) + SumBy(ContainersOf(CpuOf), others) <= CpuOf(n.allocatable)
            && MemoryOf(ic) + SumBy(ContainersOf(MemoryOf), others) <= MemoryOf(n.allocatable)
            && GpuOf(ic) + SumBy(ContainersOf(GpuOf), others) <= GpuOf(n.allocatable)
  {
    var on := PodsOn(After(start, steps), n.name);
    NeverOverCommitted(nodes, start, steps);
    assert FitsTogether(n, on);
    SameSum(PodCpu, p => Effective(CpuOf, p), on);
    SameSum(PodMemory, p => Effective(MemoryOf, p), on);
    SameSum(PodGpu, p => Effective(GpuOf, p), on);
    InitContainerHasRoom(CpuOf, on, i, ic, CpuOf(n.allocatable));
    InitContainerHasRoom(MemoryOf, on, i, ic, MemoryOf(n.allocatable));
    InitContainerHasRoom(GpuOf, on, i, ic, GpuOf(n.allocatable));
  }

  // ---- Feasibility only shrinks as pods are added -------------------------

  predicate NoRequiredAffinity(pod: Pod) {
    forall term | term in pod.affinity :: term.topologyKey == ""
  }

  predicate NoEnforcedSpread(pod: Pod) {
    forall c | c in pod.spread :: !Enforced(c)
  }

  /** Every node still has the pods it had, followed by more. */
  ghost predicate Grown(pods: PodsByNode, more: PodsByNode) {
    forall name :: PodsOn(pods, name) <= PodsOn(more, name)
  }

  lemma SumByPrefix<T>(f: T -> nat, s: seq<T>, t: seq<T>)
    requires s <= t
    ensures SumBy(f, s) <= SumBy(f, t)
  {
    assert t == s + t[|s|..];
    SumByAppend(f, s, t[|s|..]);
  }

  /** The one pod counts for a required affinity term, or an enforced spread constraint, of the other. */
  predicate Helps(q: Pod, p: Pod) {
    || (exists term | term in p.affinity :: term.topologyKey != "" && PodMatchesAffinityTerm(q, term))
    || (exists c | c in p.spread :: Enforced(c) && PodMatchesLabelSelector(q, c.selector))
  }

  /** The pods that were added to this node are no help to the pod. */
  predicate NoHelpOn(on: seq<Pod>, more: seq<Pod>, pod: Pod) {
    forall i | |on| <= i < |more| :: !Helps(more[i], pod)
  }

  ghost predicate AddsNoHelp(pods: PodsByNode, more: PodsByNode, pod: Pod) {
    forall name :: NoHelpOn(PodsOn(pods, name), PodsOn(more, name), pod)
  }

  lemma MatchWasThere(on: seq<Pod>, more: seq<Pod>, pod: Pod, term: PodAffinityTerm)
    requires on <= more && NoHelpOn(on, more, pod) && term in pod.affinity && term.topologyKey != ""
    requires AnyMatches(more, term)
    ensures AnyMatches(on, term)
  {
    var q :| q in more && PodMatchesAffinityTerm(q, term);
    var i :| 0 <= i < |more| && more[i] == q;
    assert Helps(q, pod);
    assert on[i] == q;
  }

  lemma AffinityWasSatisfied(
      pod: Pod, node: Node, nodes: seq<Node>, pods: PodsByNode, more: PodsByNode, term: PodAffinityTerm)
    requires Grown(pods, more) && AddsNoHelp(pods, more, pod) && term in pod.affinity
    requires AffinityTermHolds(term, node, PodsOn(more, node.name), ClusterView(nodes, more))
    ensures AffinityTermHolds(term, node, PodsOn(pods, node.name), ClusterView(nodes, pods))
  {
    if term.topologyKey != "" {
      var n :| n in nodes && Labelled(n, term.topologyKey, node.labels[term.topologyKey]) &&
               AnyMatches(PodsOn(more, n.name), term);
      assert NoHelpOn(PodsOn(pods, n.name), PodsOn(more, n.name), pod);
      MatchWasThere(PodsOn(pods, n.name), PodsOn(more, n.name), pod, term);
    }
  }

  lemma {:induction false} SameMatchingCount(on: seq<Pod>, more: seq<Pod>, pod: Pod, c: SpreadConstraint)
    requires on <= more && NoHelpOn(on, more, pod) && c in pod.spread && Enforced(c)
    ensures CountMatching(more, c.selector) == CountMatching(on, c.selector)
    decreases |more|
  {
    if |more| > |on| {
      assert Helps(more[|more| - 1], pod) || !PodMatchesLabelSelector(more[|more| - 1], c.selector);
      SameMatchingCount(on, more[..|more| - 1], pod, c);
    } else {
      assert on == more;
    }
  }

  lemma {:induction false} SameDomainCount(
      nodes: seq<Node>, pods: PodsByNode, more: PodsByNode, pod: Pod, c: SpreadConstraint, value: string)
    requires Grown(pods, more) && AddsNoHelp(pods, more, pod) && c in pod.spread && Enforced(c)
    ensures DomainCount(nodes, more, c.topologyKey, c.selector, value)
         == DomainCount(nodes, pods, c.topologyKey, c.selector, value)
  {
    if nodes != [] {
      var n := nodes[|nodes| - 1];
      assert NoHelpOn(PodsOn(pods, n.name), PodsOn(more, n.name), pod);
      SameMatchingCount(PodsOn(pods, n.name), PodsOn(more, n.name), pod, c);
      SameDomainCount(nodes[..|nodes| - 1], pods, more, pod, c, value);
    }
  }

  lemma SpreadHeld(pod: Pod, node: Node, nodes: seq<Node>, pods: PodsByNode, more: PodsByNode, c: SpreadConstraint)
    requires Grown(pods, more) && AddsNoHelp(pods, more, pod) && c in pod.spread
    requires SpreadHolds(c, node, PodsOn(more, node.name), ClusterView(nodes, more))
    ensures SpreadHolds(c, node, PodsOn(pods, node.name), ClusterView(nodes, pods))
  {
    if Enforced(c) && c.topologyKey in node.labels {
      var target := node.labels[c.topologyKey];
      var domains := Domains(nodes, c.topologyKey) + {target};
      forall a, b | a in domains && b in domains
        ensures CountAfterAdding(c, nodes, pods, target, a) - CountAfterAdding(c, nodes, pods, target, b) <= c.maxSkew
      {
        SameDomainCount(nodes, pods, more, pod, c, a);
        SameDomainCount(nodes, pods, more, pod, c, b);
        assert CountAfterAdding(c, nodes, more, target, a) - CountAfterAdding(c, nodes, more, target, b) <= c.maxSkew;
      }
    }
  }

  lemma AntiAffinityHeld(pod: Pod, node: Node, nodes: seq<Node>, pods: PodsByNode, more: PodsByNode, term: PodAffinityTerm)
    requires Grown(pods, more)
    requires AntiAffinityTermHolds(term, node, PodsOn(more, node.name), ClusterView(nodes, more))
    ensures AntiAffinityTermHolds(term, node, PodsOn(pods, node.name), ClusterView(nodes, pods))
  {
    assert forall n, p | n in nodes && p in PodsOn(pods, n.name) :: p in PodsOn(more, n.name);
  }

  /** A pod that fits once more pods are there already fitted before them, when none of them is a help to it. */
  lemma FitsIsAntitone(pod: Pod, node: Node, nodes: seq<Node>, pods: PodsByNode, more: PodsByNode)
    requires Grown(pods, more) && AddsNoHelp(pods, more, pod)
    requires FitsIn(pod, node, nodes, Some(more))
    ensures FitsIn(pod, node, nodes, Some(pods))
  {
    var on, onMore := PodsOn(pods, node.name), PodsOn(more, node.name);
    SumByPrefix(PodCpu, on, onMore);
    SumByPrefix(PodMemory, on, onMore);
    SumByPrefix(PodGpu, on, onMore);
    forall term | term in pod.affinity ensures AffinityTermHolds(term, node, on, ClusterView(nodes, pods)) {
      assert AffinityTermHolds(term, node, onMore, ClusterView(nodes, more));
      AffinityWasSatisfied(pod, node, nodes, pods, more, term);
    }
    forall term | term in pod.antiAffinity ensures AntiAffinityTermHolds(term, node, on, ClusterView(nodes, pods)) {
      assert AntiAffinityTermHolds(term, node, onMore, ClusterView(nodes, more));
      AntiAffinityHeld(pod, node, nodes, pods, more, term);
    }
    forall c | c in pod.spread ensures SpreadHolds(c, node, on, ClusterView(nodes, pods)) {
      assert SpreadHolds(c, node, onMore, ClusterView(nodes, more));
      SpreadHeld(pod, node, nodes, pods, more, c);
    }
  }

  /** Which pending pod goes where. */
  datatype Placement = Placement(pending: nat, node: string)

  predicate ArePending(placements: seq<Placement>, pending: seq<Pod>) {
    forall p | p in placements :: p.pending < |pending|
  }

  predicate AreDistinct(placements: seq<Placement>) {
    forall i, j | 0 <= i < j < |placements| :: placements[i].pending != placements[j].pending
  }

  function StepsOf(pending: seq<Pod>, placements: seq<Placement>): seq<Step>
    requires ArePending(placements, pending)
  {
    seq(|placements|, i requires 0 <= i < |placements| =>
      assert placements[i] in placements; Place(pending[placements[i].pending], placements[i].node))
  }

  ghost function PlacedSet(placements: seq<Placement>): set<nat> {
    set p | p in placements :: p.pending
  }

  /** The steps place pods that are no help to the pod. */
  predicate PlaceNoHelp(steps: seq<Step>, pod: Pod) {
    forall s | s in steps :: s.Place? && !Helps(s.pod, pod)
  }

  lemma {:induction false} OnlyPlacementsGrow(start: PodsByNode, steps: seq<Step>, pod: Pod)
    requires PlaceNoHelp(steps, pod)
    ensures Grown(start, After(start, steps)) && AddsNoHelp(start, After(start, steps), pod)
  {
    if steps != [] {
      var before, last := After(start, steps[..|steps| - 1]), steps[|steps| - 1];
      OnlyPlacementsGrow(start, steps[..|steps| - 1], pod);
      assert last in steps;
      forall name ensures NoHelpOn(PodsOn(start, name), PodsOn(After(start, steps), name), pod) {
        assert NoHelpOn(PodsOn(start, name), PodsOn(before, name), pod);
      }
    }
  }

  /** A pod placed after any number of placements that are no help to it is not one that fits nowhere at the start. */
  lemma PlacedLaterFitsNow(pod: Pod, name: string, nodes: seq<Node>, start: PodsByNode, steps: seq<Step>)
    requires PlaceNoHelp(steps, pod)
    requires MayPlace(pod, name, nodes, After(start, steps))
    ensures !FitsNowhere(pod, nodes, Some(start))
  {
    OnlyPlacementsGrow(start, steps, pod);
    var n :| n in nodes && n.name == name && FitsIn(pod, n, nodes, Some(After(start, steps)));
    FitsIsAntitone(pod, n, nodes, start, After(start, steps));
  }

  /** No pending pod is a help to another one. */
  predicate NoneHelps(pending: seq<Pod>) {
    forall i, j | 0 <= i < |pending| && 0 <= j < |pending| && i != j :: !Helps(pending[i], pending[j])
  }

  lemma EarlierIsNoHelp(pending: seq<Pod>, placements: seq<Placement>, i: nat)
    requires i < |placements| && ArePending(placements, pending) && AreDistinct(placements) && NoneHelps(pending)
    ensures PlaceNoHelp(StepsOf(pending, placements)[..i], pending[placements[i].pending])
  {
    var steps := StepsOf(pending, placements);
    forall s | s in steps[..i] ensures s.Place? && !Helps(s.pod, pending[placements[i].pending]) {
      var k :| 0 <= k < i && steps[k] == s;
    }
  }

  lemma {:induction false} EnabledAt(nodes: seq<Node>, start: PodsByNode, steps: seq<Step>, i: nat)
    requires i < |steps| && IsRun(nodes, start, steps)
    ensures Enabled(nodes, After(start, steps[..i]), steps[i])
  {
    if i < |steps| - 1 {
      EnabledAt(nodes, start, steps[..|steps| - 1], i);
      assert steps[..|steps| - 1][..i] == steps[..i];
    }
  }

  lemma PlacedWasNotStuck(pending: seq<Pod>, nodes: seq<Node>, start: PodsByNode, placements: seq<Placement>, i: nat)
    requires i < |placements| && ArePending(placements, pending) && AreDistinct(placements) && NoneHelps(pending)
    requires IsRun(nodes, start, StepsOf(pending, placements))
    ensures !FitsNowhere(pending[placements[i].pending], nodes, Some(start))
  {
    var steps := StepsOf(pending, placements);
    EnabledAt(nodes, start, steps, i);
    EarlierIsNoHelp(pending, placements, i);
    PlacedLaterFitsNow(pending[placements[i].pending], placements[i].node, nodes, start, steps[..i]);
  }

  lemma {:induction false} DistinctPlacements(placements: seq<Placement>)
    requires AreDistinct(placements)
    ensures |PlacedSet(placements)| == |placements|
  {
    if placements != [] {
      var last := |placements| - 1;
      DistinctPlacements(placements[..last]);
      assert placements == placements[..last] + [placements[last]];
      assert PlacedSet(placements) == PlacedSet(placements[..last]) + {placements[last].pending};
    }
  }

  lemma {:induction false} SubsetBelow(s: set<nat>, n: nat)
    requires forall x | x in s :: x < n
    ensures |s| <= n
  {
    if n != 0 {
      SubsetBelow(s - {n - 1}, n - 1);
    } else {
      assert s == {};
    }
  }

  /**
   However the pending pods are placed, one after the other in any order, at least as many stay unplaced as the
   simulator counts unschedulable before the first of them, when none of them counts for a required affinity term or
   an enforced spread constraint of another.
   */
  lemma UnschedulableIsLowerBound(pending: seq<Pod>, nodes: seq<Node>, start: PodsByNode, placements: seq<Placement>)
    requires ArePending(placements, pending) && AreDistinct(placements) && NoneHelps(pending)
    requires IsRun(nodes, start, StepsOf(pending, placements))
    ensures |Stuck(pending, nodes, Some(start))| <= |pending| - |placements|
  {
    DistinctPlacements(placements);
    var stuck, placed := Stuck(pending, nodes, Some(start)), PlacedSet(placements);
    forall k | k in placed ensures k < |pending| && k !in stuck {
      var i :| 0 <= i < |placements| && placements[i].pending == k;
      PlacedWasNotStuck(pending, nodes, start, placements, i);
    }
    SubsetBelow(stuck + placed, |pending|);
    assert |stuck + placed| == |stuck| + |placed|;
  }

  /** In particular when no pending pod has a required affinity term or an enforced spread constraint at all. */
  lemma UnconstrainedIsLowerBound(pending: seq<Pod>, nodes: seq<Node>, start: PodsByNode, placements: seq<Placement>)
    requires ArePending(placements, pending) && AreDistinct(placements)
    requires forall p | p in pending :: NoRequiredAffinity(p) && NoEnforcedSpread(p)
    requires IsRun(nodes, start, StepsOf(pending, placements))
    ensures |Stuck(pending, nodes, Some(start))| <= |pending| - |placements|
  {
    forall i, j | 0 <= i < |pending| && 0 <= j < |pending| && i != j ensures !Helps(pending[i], pending[j]) {
      assert pending[j] in pending;
    }
    UnschedulableIsLowerBound(pending, nodes, start, placements);
  }

  // ---- Why some pods are left out of the bound -----------------------------

  const NOTHING := Resources(None, None, None)

  function SomePod(name: string, affinity: seq<PodAffinityTerm>): Pod {
    Pod("default", name, [], map["app" := name], [], [], [], map[], None, affinity, [], [],
        PodStatus("Pending", [], []))
  }

  /** Only goes where a database is. */
  const TERM := PodAffinityTerm(Some(LabelSelector(map["app" := "db"], [])), [], "host")
  const WEB := SomePod("web", [TERM])
  const DB := SomePod("db", [])
  const HOST := Node("n", map["host" := "n"], [], false, [], NOTHING, NOTHING)

  lemma AsksForNothing(pod: Pod, on: seq<Pod>)
    requires pod == DB || pod == WEB
    requires on == [] || on == [DB]
    ensures EnoughResources(pod, HOST, on)
  {
    SumByPush(PodCpu, [], DB);
    SumByPush(PodMemory, [], DB);
    assert [] + [DB] == [DB];
  }

  lemma DatabaseMatches(on: seq<Pod>)
    requires on == [] || on == [DB]
    ensures AnyMatches(on, TERM) <==> on == [DB]
  {
    assert PodMatchesAffinityTerm(DB, TERM);
    if on == [DB] {
      assert DB in on;
    }
  }

  lemma FitsOnHost(pod: Pod, on: seq<Pod>)
    requires pod == DB || pod == WEB
    requires on == [] || on == [DB]
    ensures FitsIn(pod, HOST, [HOST], Some(map["n" := on])) <==> pod == DB || on == [DB]
  {
    var pods: PodsByNode := map["n" := on];
    assert PodsOn(pods, "n") == on;
    assert NodeAccepts(pod, HOST);
    AsksForNothing(pod, on);
    assert pod == WEB ==> TERM in pod.affinity;
    DatabaseMatches(on);
    assert DomainHasMatch(TERM, HOST, on, ClusterView([HOST], pods)) <==> on == [DB] by {
      assert HOST in [HOST] && Labelled(HOST, "host", "n");
    }
  }

  /**
   With required affinity the count is no lower bound: a pod that fits nowhere now can fit once the pod it wants to be
   with is placed, and then none of the pending pods is left over.
   */
  lemma AffinityBreaksTheBound()
    ensures var nodes, start := [HOST], map["n" := []];
            var placements := [Placement(1, "n"), Placement(0, "n")];
            && IsRun(nodes, start, StepsOf([WEB, DB], placements))
            && |Stuck([WEB, DB], nodes, Some(start))| > |[WEB, DB]| - |placements|
  {
    var nodes, pending := [HOST], [WEB, DB];
    var start: PodsByNode := map["n" := []];
    var placements := [Placement(1, "n"), Placement(0, "n")];
    var steps := StepsOf(pending, placements);
    assert steps == [Place(DB, "n"), Place(WEB, "n")];
    FitsOnHost(WEB, []);
    FitsOnHost(DB, []);
    FitsOnHost(WEB, [DB]);
    assert 0 in Stuck(pending, nodes, Some(start));
    assert Apply(start, Place(DB, "n")) == map["n" := [DB]] by {
      assert PodsOn(start, "n") + [DB] == [DB];
    }
    assert HOST in nodes;
    TwoStepRun(nodes, start, steps[0], steps[1]);
  }

  // ---- The same for a spread constraint ------------------------------------

  const SPREAD := SpreadConstraint(1, "zone", DO_NOT_SCHEDULE, Some(LabelSelector(map["app" := "web"], [])))

  /** A pod that counts for the constraint, with or without it, and that may have to go to zone a. */
  function Replica(name: string, zone: Labels, spread: seq<SpreadConstraint>): Pod {
    Pod("default", name, [], map["app" := "web"], [], [], [], zone, None, [], [], spread, PodStatus("Pending", [], []))
  }

  const BOUND := Replica("bound", map["zone" := "a"], [SPREAD])
  const LOOSE := Replica("loose", map[], [])
  const NODE_A := Node("a", map["zone" := "a"], [], false, [], NOTHING, NOTHING)
  const NODE_B := Node("b", map["zone" := "b"], [], false, [], NOTHING, NOTHING)

  function Zones(inB: seq<Pod>): PodsByNode {
    map["a" := [LOOSE], "b" := inB]
  }

  lemma ReplicaNeedsNothing(on: seq<Pod>, pod: Pod, n: Node)
    requires on == [] || on == [LOOSE]
    requires (pod == BOUND || pod == LOOSE) && (n == NODE_A || n == NODE_B)
    ensures EnoughResources(pod, n, on)
  {
    SumByPush(PodCpu, [], LOOSE);
    SumByPush(PodMemory, [], LOOSE);
    assert [] + [LOOSE] == [LOOSE];
  }

  lemma ZoneCounts(inB: seq<Pod>)
    requires inB == [] || inB == [LOOSE]
    ensures DomainCount([NODE_A, NODE_B], Zones(inB), "zone", SPREAD.selector, "a") == 1
    ensures DomainCount([NODE_A, NODE_B], Zones(inB), "zone", SPREAD.selector, "b") == |inB|
    ensures Domains([NODE_A, NODE_B], "zone") == {"a", "b"}
  {
    CountLoose(inB);
    CountLoose([LOOSE]);
    DomainCountOfTwo(Zones(inB), "a");
    DomainCountOfTwo(Zones(inB), "b");
    DomainsPush([], NODE_A, "zone");
    DomainsPush([NODE_A], NODE_B, "zone");
    assert [] + [NODE_A] == [NODE_A] && [NODE_A] + [NODE_B] == [NODE_A, NODE_B];
    assert Domains([], "zone") == {};
  }

  lemma CountLoose(on: seq<Pod>)
    requires on == [] || on == [LOOSE]
    ensures CountMatching(on, SPREAD.selector) == |on|
  {
    assert PodMatchesLabelSelector(LOOSE, SPREAD.selector);
    assert [LOOSE][..0] == [];
  }

  lemma DomainCountOfTwo(pods: PodsByNode, value: string)
    ensures DomainCount([NODE_A, NODE_B], pods, "zone", SPREAD.selector, value)
         == (if value == "a" then CountMatching(PodsOn(pods, "a"), SPREAD.selector) else 0)
            + if value == "b" then CountMatching(PodsOn(pods, "b"), SPREAD.selector) else 0
  {
    DomainCountPush([], NODE_A, pods, value);
    DomainCountPush([NODE_A], NODE_B, pods, value);
    assert [] + [NODE_A] == [NODE_A] && [NODE_A] + [NODE_B] == [NODE_A, NODE_B];
  }

  lemma DomainCountPush(nodes: seq<Node>, n: Node, pods: PodsByNode, value: string)
    ensures DomainCount(nodes + [n], pods, "zone", SPREAD.selector, value)
         == DomainCount(nodes, pods, "zone", SPREAD.selector, value)
            + if Labelled(n, "zone", value) then CountMatching(PodsOn(pods, n.name), SPREAD.selector) else 0
  {
    assert (nodes + [n])[..|nodes|] == nodes;
  }

  /** The skew allows one more in zone a exactly when there is one in zone b. */
  lemma SkewInZones(inB: seq<Pod>)
    requires inB == [] || inB == [LOOSE]
    ensures SkewAfterAdding(SPREAD, [NODE_A, NODE_B], Zones(inB), "a") <==> inB == [LOOSE]
  {
    ZoneCounts(inB);
    assert CountAfterAdding(SPREAD, [NODE_A, NODE_B], Zones(inB), "a", "a") == 2;
    assert CountAfterAdding(SPREAD, [NODE_A, NODE_B], Zones(inB), "a", "b") == |inB|;
  }

  lemma BoundSpreads(inB: seq<Pod>)
    requires inB == [] || inB == [LOOSE]
    ensures SatisfiesSpread(BOUND, NODE_A, [LOOSE], ClusterView([NODE_A, NODE_B], Zones(inB))) <==> inB == [LOOSE]
  {
    SkewInZones(inB);
    assert SPREAD in BOUND.spread && Enforced(SPREAD) && NODE_A.labels["zone"] == "a";
    assert SpreadHolds(SPREAD, NODE_A, [LOOSE], ClusterView([NODE_A, NODE_B], Zones(inB))) <==> inB == [LOOSE];
  }

  /** The test that only sees the node's own pods lets a pod through that the skew over the cluster forbids. */
  lemma LocalSpreadIsNotConservative()
    ensures SpreadHolds(SPREAD, NODE_A, [LOOSE], LocalView)
    ensures !SpreadHolds(SPREAD, NODE_A, [LOOSE], ClusterView([NODE_A, NODE_B], Zones([])))
  {
    CountLoose([LOOSE]);
    LocalSpreadIff(SPREAD, NODE_A, [LOOSE]);
    SkewInZones([]);
    assert NODE_A.labels["zone"] == "a";
  }

  lemma BoundFitsWithOneInB(inB: seq<Pod>)
    requires inB == [] || inB == [LOOSE]
    ensures FitsIn(BOUND, NODE_A, [NODE_A, NODE_B], Some(Zones(inB))) <==> inB == [LOOSE]
  {
    BoundSpreads(inB);
    ReplicaNeedsNothing([LOOSE], BOUND, NODE_A);
    assert NodeAccepts(BOUND, NODE_A);
  }

  lemma BoundNeverInB(pods: PodsByNode)
    ensures !FitsIn(BOUND, NODE_B, [NODE_A, NODE_B], Some(pods))
  {
    assert "zone" in BOUND.nodeSelector && !Labelled(NODE_B, "zone", "a");
  }

  lemma LooseFitsInB()
    ensures FitsIn(LOOSE, NODE_B, [NODE_A, NODE_B], Some(Zones([])))
  {
    ReplicaNeedsNothing([], LOOSE, NODE_B);
    assert NodeAccepts(LOOSE, NODE_B);
  }

  lemma BoundIsStuck()
    ensures 0 in Stuck([BOUND, LOOSE], [NODE_A, NODE_B], Some(Zones([])))
  {
    BoundFitsWithOneInB([]);
    BoundNeverInB(Zones([]));
    assert FitsNowhere([BOUND, LOOSE][0], [NODE_A, NODE_B], Some(Zones([])));
  }

  /**
   With an enforced spread constraint the count is no lower bound either: a pod that would make the skew too large now
   fits once another pod that counts, and need not carry the constraint, is placed in the other zone.
   */
  lemma SpreadBreaksTheBound()
    ensures var nodes, start, pending := [NODE_A, NODE_B], Zones([]), [BOUND, LOOSE];
            var placements := [Placement(1, "b"), Placement(0, "a")];
            && IsRun(nodes, start, StepsOf(pending, placements))
            && |Stuck(pending, nodes, Some(start))| > |pending| - |placements|
  {
    BoundIsStuck();
    assert StepsOf([BOUND, LOOSE], [Placement(1, "b"), Placement(0, "a")]) == [Place(LOOSE, "b"), Place(BOUND, "a")];
    LooseThenBound();
  }

  lemma LooseThenBound()
    ensures IsRun([NODE_A, NODE_B], Zones([]), [Place(LOOSE, "b"), Place(BOUND, "a")])
  {
    var nodes, start := [NODE_A, NODE_B], Zones([]);
    assert NODE_B in nodes && NODE_A in nodes;
    LooseFitsInB();
    BoundFitsWithOneInB([LOOSE]);
    assert Apply(start, Place(LOOSE, "b")) == Zones([LOOSE]) by {
      assert PodsOn(start, "b") + [LOOSE] == [LOOSE];
    }
    assert MayPlace(LOOSE, "b", nodes, start) && MayPlace(BOUND, "a", nodes, Zones([LOOSE]));
    TwoStepRun(nodes, start, Place(LOOSE, "b"), Place(BOUND, "a"));
  }

  lemma TwoStepRun(nodes: seq<Node>, start: PodsByNode, a: Step, b: Step)
    requires Enabled(nodes, start, a) && Enabled(nodes, Apply(start, a), b)
    ensures IsRun(nodes, start, [a, b])
  {
    assert [a, b][..1] == [a] && [a][..0] == [];
    assert After(start, []) == start && After(start, [a]) == Apply(start, a);
    assert IsRun(nodes, start, []) && IsRun(nodes, start, [a]);
  }

  // ---- Local and cluster-wide answers -------------------------------------

  /** No other node of the list has the same value of the key. */
  ghost predicate DistinctOn(nodes: seq<Node>, key: string) {
    forall m, n | m in nodes && n in nodes && SameDomain(m, n, key) :: m.name == n.name
  }

  /**
   The test that only sees the node's own pods answers exactly like the test that sees the whole cluster, reason
   included, when no spread constraint is enforced and every required (anti-)affinity key tells the nodes apart.
   */
  lemma LocalViewAgrees(pod: Pod, node: Node, nodes: seq<Node>, pods: PodsByNode)
    requires UniqueNames(nodes) && node in nodes
    requires NoEnforcedSpread(pod)
    requires forall term | term in pod.affinity + pod.antiAffinity && term.topologyKey != "" ::
               DistinctOn(nodes, term.topologyKey)
    ensures var on := PodsOn(pods, node.name);
            && (Fits(pod, node, on, LocalView) <==> Fits(pod, node, on, ClusterView(nodes, pods)))
            && FirstFailure(pod, node, on, LocalView) == FirstFailure(pod, node, on, ClusterView(nodes, pods))
  {
    var on := PodsOn(pods, node.name);
    forall term | term in pod.affinity + pod.antiAffinity && term.topologyKey != "" && term.topologyKey in node.labels
      ensures DomainHasMatch(term, node, on, LocalView) <==> DomainHasMatch(term, node, on, ClusterView(nodes, pods))
    {
      var value := node.labels[term.topologyKey];
      forall n | n in nodes && Labelled(n, term.topologyKey, value) ensures n.name == node.name {
        assert SameDomain(node, n, term.topologyKey);
      }
    }
    assert forall term | term in pod.affinity :: term in pod.affinity + pod.antiAffinity;
    assert forall term | term in pod.antiAffinity :: term in pod.affinity + pod.antiAffinity;
  }
}
