/** api/v1alpha1: the FaultInjection resource, without the fields nothing here reads. */
module Api {
  import opened Wrappers
  import opened Machine
  import Names

  // ---------------------------------------------------------------- pod faults

  const COUNT := "COUNT"
  const PERCENT := "PERCENT"
  const ONE_SHOT := "ONE_SHOT"
  const WINDOWED := "WINDOWED"
  const FORCEFUL := "FORCEFUL"
  const GRACEFUL := "GRACEFUL"

  datatype Window = Window(intervalSeconds: int32, maxTotalPodsAffected: int32)

  datatype Selection = Selection(mode: string, count: Option<int32>, percent: Option<int32>, maxPodsAffected: Option<int32>)

  datatype PodAction = PodAction(
    name: string,
    targetNamespace: string,
    selection: Selection,
    executionMode: Option<string>,
    window: Option<Window>,
    terminationMode: string,
    gracePeriodSeconds: int64,
    refuseIfPodsLessThan: int32)

  datatype TickState = Unset | Planned | Succeeded | Failed

  predicate Terminal(s: TickState) { s == Succeeded || s == Failed }

  datatype Tick = Tick(
    action: string,
    tick: string,
    plannedAt: Option<int>,
    plannedPods: seq<string>,
    jobName: string,
    executedAt: Option<int>,
    state: TickState)

  // ---------------------------------------------------------------- mesh faults

  const INBOUND := "INBOUND"
  const OUTBOUND := "OUTBOUND"
  const HTTP_LATENCY := "HTTP_LATENCY"
  const HTTP_ABORT := "HTTP_ABORT"

  datatype HTTPMatch = HTTPMatch(uriPrefix: string, uriExact: string, headers: map<string, string>)

  /** Optional objects of the Go type are None when the pointer is nil; a nil and an
      empty sourceSelector are the same to every reader. */
  datatype MeshAction = MeshAction(
    name: string,
    direction: string,
    kind: string,
    percent: int32,
    virtualServiceRef: Option<string>,
    destinationHosts: seq<string>,
    sourceLabels: map<string, string>,
    routes: seq<HTTPMatch>,
    fixedDelaySeconds: Option<int32>,
    abortStatus: Option<int32>,
    timeoutSeconds: Option<int32>)

  // ---------------------------------------------------------------- the resource

  datatype Spec = Spec(
    durationSeconds: int64,
    maxTrafficPercent: int32,
    maxPodsAffected: int64,
    cancel: bool,
    meshFaults: seq<MeshAction>,
    podFaults: seq<PodAction>)

  datatype Phase = NoPhase | Running | Completed | Cancelled | Error

  datatype Status = Status(
    phase: Phase,
    startedAt: Option<int>,
    expiresAt: Option<int>,
    cancelledAt: Option<int>,
    ticks: seq<Tick>)

  datatype FaultInjection = FaultInjection(id: Names.Identity, spec: Spec, status: Status)
}
