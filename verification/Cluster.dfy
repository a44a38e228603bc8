/**
 The parts of the Kubernetes objects that the simulator and the cluster cache read.
 Absent maps, lists and pointers are empty maps, empty sequences and None.
 CPU is in millicores, memory in bytes.
 */
module Cluster {
  import opened Wrappers

  type Labels = map<string, string>

  const NO_SCHEDULE := "NoSchedule"
  const NO_EXECUTE := "NoExecute"
  const DO_NOT_SCHEDULE := "DoNotSchedule"
  const OP_IN := "In"
  const OP_NOT_IN := "NotIn"
  const OP_EXISTS := "Exists"
  const OP_DOES_NOT_EXIST := "DoesNotExist"
  const OP_GT := "Gt"
  const OP_LT := "Lt"
  const NODE_READY := "Ready"
  const CONDITION_TRUE := "True"
  const METADATA_NAME := "metadata.name"
  const HOURS_PER_MONTH: real := 730.5

  /** A resource list: quantities are present or absent, and never negative. */
  datatype Resources = Resources(cpu: Option<nat>, memory: Option<nat>, gpu: Option<nat>)

  function CpuOf(r: Resources): nat { r.cpu.GetOr(0) }

  function MemoryOf(r: Resources): nat { r.memory.GetOr(0) }

  function GpuOf(r: Resources): nat { r.gpu.GetOr(0) }

  datatype Taint = Taint(key: string, value: string, effect: string)

  datatype Toleration = Toleration(key: string, operator: string, value: string, effect: string)

  /** One match expression of a node selector term or of a label selector. */
  datatype Requirement = Requirement(key: string, operator: string, values: seq<string>)

  datatype NodeSelectorTerm = NodeSelectorTerm(expressions: seq<Requirement>, fields: seq<Requirement>)

  datatype LabelSelector = LabelSelector(matchLabels: Labels, expressions: seq<Requirement>)

  /** A required (anti-)affinity term. Its namespace selector never changes the outcome and is not represented. */
  datatype PodAffinityTerm = PodAffinityTerm(
    selector: Option<LabelSelector>,
    namespaces: seq<string>,
    topologyKey: string)

  datatype SpreadConstraint = SpreadConstraint(
    maxSkew: int,
    topologyKey: string,
    whenUnsatisfiable: string,
    selector: Option<LabelSelector>)

  /** The waiting reason of each container status, None where the container is not waiting. */
  datatype PodStatus = PodStatus(
    phase: string,
    containerWaiting: seq<Option<string>>,
    initWaiting: seq<Option<string>>)

  datatype Owner = Owner(kind: string, name: string)

  datatype Pod = Pod(
    namespace: string,
    name: string,
    owners: seq<Owner>,
    labels: Labels,
    containers: seq<Resources>,
    initContainers: seq<Resources>,
    tolerations: seq<Toleration>,
    nodeSelector: Labels,
    nodeAffinity: Option<seq<NodeSelectorTerm>>,
    affinity: seq<PodAffinityTerm>,
    antiAffinity: seq<PodAffinityTerm>,
    spread: seq<SpreadConstraint>,
    status: PodStatus)

  datatype Condition = Condition(kind: string, status: string)

  datatype Node = Node(
    name: string,
    labels: Labels,
    conditions: seq<Condition>,
    unschedulable: bool,
    taints: seq<Taint>,
    allocatable: Resources,
    capacity: Resources)

  type PodsByNode = map<string, seq<Pod>>

  /** The pods on a node; a missing map entry reads as no pods. */
  function PodsOn(pods: PodsByNode, name: string): seq<Pod> {
    if name in pods then pods[name] else []
  }

  ghost predicate UniqueNames(nodes: seq<Node>) {
    forall i, j :: 0 <= i < j < |nodes| ==> nodes[i].name != nodes[j].name
  }

  /** Label `key` of the node has value `value`. */
  predicate Labelled(n: Node, key: string, value: string) {
    key in n.labels && n.labels[key] == value
  }

  /** The key under which pods of one owner are grouped. */
  function JoinKey(namespace: string, kind: string, name: string): string {
    namespace + "/" + (kind + "/" + name)
  }
}
