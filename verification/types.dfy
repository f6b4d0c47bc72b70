/** Values the PodDisruptionBudget reaper reads and produces: PDBs, pods,
    the run's configuration, the cluster's answers and the trace of
    events and metric samples it emits. */
module PdbTypes {

  datatype Option<+T> = None | Some(value: T)

  datatype Result<+T, +E> = Success(value: T) | Failure(error: E)

  /** Go's int32. */
  type Int32 = x: int | -0x8000_0000 <= x < 0x8000_0000

  /** Go's conversion int32(x): keeps the low 32 bits of x, read as two's complement. */
  function ToInt32(x: int): (r: Int32)
    ensures (x - r) % 0x1_0000_0000 == 0
    ensures -0x8000_0000 <= x < 0x8000_0000 ==> r == x
  {
    (x + 0x8000_0000) % 0x1_0000_0000 - 0x8000_0000
  }

  /** An int-or-string field of a PDB spec: an absolute count, a percentage,
      or a string that does not parse as a percentage. */
  datatype IntOrPercent = IntValue(n: Int32) | Percent(p: int) | Malformed(text: string)

  datatype ContainerStatus = ContainerStatus(
    waitingReason: Option<string>,   // None when the container is not waiting
    restartCount: Int32)

  datatype PodCondition = PodCondition(
    condType: string,
    status: string,
    lastTransition: int)             // nanoseconds since the epoch

  /** A pod, as far as the reaper looks at it; pods are always listed within one namespace. */
  datatype Pod = Pod(
    name: string,
    initContainerStatuses: seq<ContainerStatus>,
    containerStatuses: seq<ContainerStatus>,
    conditions: seq<PodCondition>)

  datatype Pdb = Pdb(
    namespace: string,
    name: string,
    maxUnavailable: Option<IntOrPercent>,
    minAvailable: Option<IntOrPercent>,
    disruptionsAllowed: Int32,
    expectedPods: Int32)

  /** The fixed set of event reasons, also used as the metric's reason tag. */
  datatype Reason =
    | PodDisruptionBudgetDeleted
    | BlockingDetected
    | MultipleDetected
    | BlockingCrashLoopDetected
    | BlockingNotReadyStateDetected

  function ReasonText(r: Reason): string
  {
    match r
    case PodDisruptionBudgetDeleted => "PodDisruptionBudgetDeleted"
    case BlockingDetected => "BlockingPodDisruptionBudget"
    case MultipleDetected => "MultiplePodDisruptionBudgets"
    case BlockingCrashLoopDetected => "BlockingPodDisruptionBudgetWithCrashLoop"
    case BlockingNotReadyStateDetected => "BlockingPodDisruptionBudgetWithNotReadyState"
  }

  /** Distinct reasons are published under distinct strings. */
  lemma ReasonTextInjective(r1: Reason, r2: Reason)
    ensures ReasonText(r1) == ReasonText(r2) ==> r1 == r2
  {
  }

  /** One observable side effect: a published event, or one sample of the
      governor_pdb_reaper_result gauge (value 0 or 1). */
  datatype Effect =
    | Event(pdb: Pdb, reason: Reason)
    | Metric(pdb: Pdb, reason: Reason, value: int)

  /** The errors that abort a run. */
  datatype ReapError =
    | PdbListFailed
    | SelectorUnresolvable
    | PodListFailed
    | MaxUnavailableUnresolvable
    | MinAvailableUnresolvable
    | DeleteFailed

  /** The cluster's answer to a delete request. */
  datatype DeleteOutcome = DeleteOk | DeleteNotFound | DeleteError

  /** The cluster as the reaper sees it during one run: label-selector
      resolution (which may fail), listing the pods that match a selector in
      a namespace (which may fail), and the answer to the i-th delete request
      of the run. */
  datatype Cluster = Cluster(
    selectorOf: Pdb -> Option<string>,
    listPods: (string, string) -> Option<seq<Pod>>,
    deleteOutcome: (nat, Pdb) -> DeleteOutcome)

  datatype Config = Config(
    excludedNamespaces: seq<string>,
    dryRun: bool,
    reapMultiple: bool,
    reapMisconfigured: bool,
    reapCrashLoop: bool,
    crashLoopRestartCount: int,
    allCrashLoop: bool,
    reapNotReady: bool,
    reapNotReadyThreshold: int,
    allNotReady: bool)
}
