/** Records shared by the control plane: catalog entries, compositions and their runtime state. */
module Domain {

  datatype Option<+T> = None | Some(value: T)

  // ----- Catalog -----

  /** `Unset` is the empty kind of older catalog rows, read as HTTP. */
  datatype WorkloadKind = Unset | HTTP | Worker | Job | ScheduledJob | Unknown(name: string)

  /** A timeout setting: missing, not a duration, or a duration in nanoseconds. */
  datatype Timeout = Missing | Malformed | Lasting(ns: int)

  datatype WorkloadExecution = WorkloadExecution(
    kind: WorkloadKind,
    dependencies: seq<string>,
    timeout: Timeout,
    retryLimit: int,
    scheduleFields: nat,
    scheduleLength: nat,
    maxRuns: int,
    concurrencyPolicy: string)

  datatype Component = Component(id: string, port: int, execution: Option<WorkloadExecution>) {
    function Kind(): WorkloadKind {
      if execution.Some? && execution.value.kind != Unset then execution.value.kind else HTTP
    }

    predicate HasEndpoint() {
      Kind() == HTTP
    }

    function Dependencies(): seq<string> {
      if execution.Some? then execution.value.dependencies else []
    }
  }

  datatype Binding = Binding(serviceHost: string, port: int)

  datatype BaselineRouting = BaselineRouting(
    namespace: string,
    gateway: string,
    gatewayNamespace: string,
    gatewaySection: string,
    entryComponent: string,
    previewSelector: Option<string>)

  datatype Consumer = Consumer(subscription: string, component: string, subscriptionEnv: string, filter: string)

  datatype Topic = Topic(name: string, publishers: seq<string>, consumers: map<string, Consumer>)

  /** `host` is the host name of the parsed endpoint URL; `None` when the URL has none. */
  datatype Baseline = Baseline(
    routing: BaselineRouting,
    verificationKind: string,
    host: Option<string>,
    components: map<string, Binding>,
    pubsub: map<string, Topic>)

  datatype MessageSubscription = MessageSubscription(
    name: string,
    topic: string,
    component: string,
    subscriptionEnv: string,
    filter: string,
    ready: bool)

  datatype Plan = Plan(baseline: Baseline, profiles: map<string, Component>, subscriptions: seq<MessageSubscription>)

  // ----- Compositions -----

  datatype Phase =
    Created | Provisioning | Ready | Completed | Suspended | Updating | Failed | Destroying | Destroyed

  datatype Override = Override(image: string, buildID: string)

  type Selection = map<string, Override>

  datatype WorkloadRef = WorkloadRef(namespace: string, namespaceUID: string, service: string, ownershipToken: string)

  datatype ExecutionState = Pending | Running | ExecutionReady | Succeeded | ExecutionFailed | ExecutionSuspended | Cancelled

  datatype ExecutionRef = ExecutionRef(id: string, specHash: string, generation: int, state: ExecutionState)

  datatype ComponentStatus =
    StatusProvisioning | StatusReady | StatusExecution(state: ExecutionState) | StatusOther(text: string)

  datatype Endpoint = Endpoint(host: Option<string>, ready: bool)

  datatype OperationStatus = OperationPending | OperationRunning | OperationSucceeded | OperationFailed

  datatype Operation = Operation(kind: string, status: OperationStatus)

  /** `fingerprint` is empty while the observation is unavailable. */
  datatype BaselineObservation = BaselineObservation(fingerprint: string, current: bool)

  datatype Evidence = Evidence(generation: int, passed: bool, baselineFingerprint: string)

  datatype RuntimeState = RuntimeState(
    ownershipToken: string,
    workloads: map<string, WorkloadRef>,
    executions: map<string, ExecutionRef>,
    published: Selection,
    retiring: map<string, WorkloadRef>,
    retirementDrainUntil: Option<int>,
    routingActive: bool,
    routesRemoved: bool,
    drainUntil: Option<int>)

  /** Bookkeeping of attempts: creation, the start of the current provisioning, failures, and the next pass. */
  datatype Schedule = Schedule(
    createdAt: int,
    observedGeneration: int,
    provisionStartedAt: Option<int>,
    attempts: nat,
    nextAttemptAt: int)

  datatype Composition = Composition(
    id: string,
    messageIsolation: bool,
    subscriptions: seq<MessageSubscription>,
    overrides: Selection,
    generation: int,
    phase: Phase,
    expiresAt: int,
    endpoints: map<string, Endpoint>,
    components: map<string, ComponentStatus>,
    operation: Operation,
    lastError: Option<string>,
    deletionRequested: bool,
    baselineObservation: Option<BaselineObservation>,
    pendingVerification: Option<Evidence>,
    plan: Option<Plan>,
    schedule: Schedule,
    runtime: RuntimeState)

  /** Replaces one character throughout, as `strings.ReplaceAll(s, from, to)` on single characters. */
  function ReplaceChar(s: string, from: char, to: char): string {
    seq(|s|, i requires 0 <= i < |s| => if s[i] == from then to else s[i])
  }

  function NamespaceForID(id: string): string {
    "envy-" + ReplaceChar(id, '_', '-')
  }

  function WorkloadFor(c: Composition, component: string): WorkloadRef {
    if component in c.runtime.workloads then c.runtime.workloads[component] else WorkloadRef("", "", "", "")
  }

  function EndpointHost(c: Composition): Option<string> {
    if "public" in c.endpoints then c.endpoints["public"].host else None
  }
}
