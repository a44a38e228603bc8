/**
 The cached view of a node: capacities, and the requests of the pods that count, summed while the cache refreshes.
 */
module NodeCache {
  import opened Wrappers
  import opened Totals
  import opened Cluster
  import opened Simulator

  const RUNNING := "Running"
  const PENDING := "Pending"
  const STUCK_REASONS := ["ImagePullBackOff", "ErrImagePull", "CreateContainerConfigError", "InvalidImageName"]

  predicate SomeStuck(waiting: seq<Option<string>>) {
    exists w | w in waiting :: w.Some? && w.value in STUCK_REASONS
  }

  predicate StuckPending(pod: Pod) {
    pod.status.phase == PENDING && (SomeStuck(pod.status.containerWaiting) || SomeStuck(pod.status.initWaiting))
  }

  method IsPodStuckPending(pod: Pod) returns (stuck: bool)
    ensures stuck <==> StuckPending(pod)
  {
    if pod.status.phase != PENDING {
      return false;
    }
    var cs := pod.status.containerWaiting;
    for i := 0 to |cs|
      invariant !SomeStuck(cs[..i])
    {
      if cs[i].Some? && cs[i].value in STUCK_REASONS {
        return true;
      }
    }
    assert cs[..|cs|] == cs;
    var ics := pod.status.initWaiting;
    for i := 0 to |ics|
      invariant !SomeStuck(ics[..i])
    {
      if ics[i].Some? && ics[i].value in STUCK_REASONS {
        return true;
      }
    }
    assert ics[..|ics|] == ics;
    return false;
  }

  /** Running pods and viable pending pods are counted; finished and stuck ones are not. */
  predicate IsCounted(pod: Pod) {
    pod.status.phase == RUNNING || (pod.status.phase == PENDING && !StuckPending(pod))
  }

  function CountedCpu(pod: Pod): nat { if IsCounted(pod) then PodCpu(pod) else 0 }

  function CountedMemory(pod: Pod): nat { if IsCounted(pod) then PodMemory(pod) else 0 }

  function ContainerGpus(pod: Pod): nat { SumBy(GpuOf, pod.containers) }

  method CountGpus(pod: Pod) returns (gpus: nat)
    ensures gpus == ContainerGpus(pod)
  {
    gpus := 0;
    for j := 0 to |pod.containers|
      invariant gpus == SumBy(GpuOf, pod.containers[..j])
    {
      assert pod.containers[..j + 1][..j] == pod.containers[..j];
      if pod.containers[j].gpu.Some? {
        gpus := gpus + pod.containers[j].gpu.value;
      }
    }
    assert pod.containers[..|pod.containers|] == pod.containers;
  }

  /** Allocatable where the node reports it, Capacity where it does not. */
  function CpuCapacityOf(node: Node): nat {
    if node.allocatable.cpu.Some? then node.allocatable.cpu.value else node.capacity.cpu.GetOr(0)
  }

  function MemoryCapacityOf(node: Node): nat {
    if node.allocatable.memory.Some? then node.allocatable.memory.value else node.capacity.memory.GetOr(0)
  }

  class NodeState {
    var cpuCapacity: nat
    var memoryCapacity: nat
    var cpuRequested: nat
    var memoryRequested: nat
    var gpusUsed: nat

    /** The cache entry is the one a refresh builds from this node and these pods. */
    ghost predicate Reflects(node: Node, pods: seq<Pod>)
      reads this
    {
      && cpuCapacity == CpuCapacityOf(node)
      && memoryCapacity == MemoryCapacityOf(node)
      && cpuRequested == SumBy(CountedCpu, pods)
      && memoryRequested == SumBy(CountedMemory, pods)
      && gpusUsed == SumBy(ContainerGpus, pods)
    }

    constructor Refresh(node: Node, pods: seq<Pod>)
      ensures Reflects(node, pods)
    {
      cpuCapacity, memoryCapacity := CpuCapacityOf(node), MemoryCapacityOf(node);
      cpuRequested, memoryRequested, gpusUsed := 0, 0, 0;
      new;
      for i := 0 to |pods|
        invariant Reflects(node, pods[..i])
      {
        assert pods[..i + 1][..i] == pods[..i];
        var pod := pods[i];
        var stuck := IsPodStuckPending(pod);
        if pod.status.phase == RUNNING || (pod.status.phase == PENDING && !stuck) {
          var cpuReq, memReq := EffectivePodResources(pod);
          cpuRequested := cpuRequested + cpuReq;
          memoryRequested := memoryRequested + memReq;
        }
        var gpus := CountGpus(pod);
        gpusUsed := gpusUsed + gpus;
      }
      assert pods[..|pods|] == pods;
    }

    function AvailableCpu(): nat
      reads this
    {
      if cpuCapacity < cpuRequested then 0 else cpuCapacity - cpuRequested
    }

    function AvailableMemory(): nat
      reads this
    {
      if memoryCapacity < memoryRequested then 0 else memoryCapacity - memoryRequested
    }
  }

  /** The pod has finished, or it waits for something that will not come by itself. */
  ghost predicate IsLeftOut(pod: Pod) {
    || pod.status.phase !in {RUNNING, PENDING}
    || (pod.status.phase == PENDING &&
        exists w :: (w in pod.status.containerWaiting || w in pod.status.initWaiting) && w.Some? && w.value in STUCK_REASONS)
  }

  lemma CountedIffNotLeftOut(pod: Pod)
    ensures CountedCpu(pod) == if IsLeftOut(pod) then 0 else PodCpu(pod)
    ensures CountedMemory(pod) == if IsLeftOut(pod) then 0 else PodMemory(pod)
  {
    if StuckPending(pod) {
      var w :| (w in pod.status.containerWaiting || w in pod.status.initWaiting) && w.Some? && w.value in STUCK_REASONS;
      assert IsLeftOut(pod);
    }
  }

  lemma {:induction false} NobodyLeftOut(pods: seq<Pod>)
    requires forall p | p in pods :: !IsLeftOut(p)
    ensures SumBy(CountedCpu, pods) == SumBy(PodCpu, pods) && SumBy(CountedMemory, pods) == SumBy(PodMemory, pods)
  {
    if pods != [] {
      var front, last := pods[..|pods| - 1], pods[|pods| - 1];
      assert forall p | p in front :: p in pods;
      NobodyLeftOut(front);
      CountedIffNotLeftOut(last);
    }
  }

  /** Pods that are left out change nothing in what the entry says is requested. */
  lemma LeftOutRequestsNothing(state: NodeState, node: Node, pods: seq<Pod>, pod: Pod)
    requires state.Reflects(node, pods + [pod])
    ensures state.cpuRequested == SumBy(CountedCpu, pods) + if IsLeftOut(pod) then 0 else PodCpu(pod)
    ensures state.memoryRequested == SumBy(CountedMemory, pods) + if IsLeftOut(pod) then 0 else PodMemory(pod)
  {
    SumByPush(CountedCpu, pods, pod);
    SumByPush(CountedMemory, pods, pod);
    CountedIffNotLeftOut(pod);
  }

  /**
   When no pod is left out and the node reports what is allocatable, the entry and the simulator agree exactly: a pod
   that asks for something has room, CPU and memory, if and only if it asks for no more than is available.
   */
  lemma RoomIffAvailable(state: NodeState, pod: Pod, node: Node, existing: seq<Pod>)
    requires state.Reflects(node, existing) && forall p | p in existing :: !IsLeftOut(p)
    requires node.allocatable.cpu.Some? && node.allocatable.memory.Some?
    requires PodCpu(pod) > 0 && PodMemory(pod) > 0 && PodGpu(pod) == 0
    ensures EnoughResources(pod, node, existing) <==>
            PodCpu(pod) <= state.AvailableCpu() && PodMemory(pod) <= state.AvailableMemory()
  {
    NobodyLeftOut(existing);
  }

  /**
   A pod that the simulator lets onto a node asks for no more than the cache entry of that node has available,
   although the cache leaves some pods out and may read another capacity.
   */
  lemma FitIsWithinAvailable(state: NodeState, pod: Pod, node: Node, existing: seq<Pod>, view: View)
    requires state.Reflects(node, existing)
    requires Fits(pod, node, existing, view)
    ensures PodCpu(pod) <= state.AvailableCpu()
    ensures PodMemory(pod) <= state.AvailableMemory()
  {
    SumByMonotone(CountedCpu, PodCpu, existing);
    SumByMonotone(CountedMemory, PodMemory, existing);
  }
}
