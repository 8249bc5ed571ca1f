/**
 One worker converging one composition. Every provider call and every store write is a method of
 its own with an arbitrary outcome, the world may move between any two of them, and the process may
 crash at each: the in-memory copy is then gone and the next pass starts from the stored row.
 */
module Reconciler {
  import opened Domain
  import opened RouteTable
  import opened History
  import opened World

  const MAX_OVERRIDES := 3
  const RECHECK := 30_000_000_000 // thirty seconds, in nanoseconds

  /** How a pass or a part of it ended. `Crashed` also stands for lost leadership: nothing more is written. */
  datatype Outcome = Done | Stale | Crashed | RoutesPending | BaselinePending | Error(message: string)

  /** What the readiness loop found over all override workloads. */
  datatype Readiness = Readiness(
    allReady: bool,
    allCompleted: bool,
    anySuspended: bool,
    waitingForOther: bool,
    hasEndpoint: bool,
    failed: bool,
    failures: bool)

  /** Nothing is missing but schedules that are suspended on purpose. */
  predicate OnlySuspended(r: Readiness) {
    r.anySuspended && !r.waitingForOther && !r.failed && !r.failures
  }

  function Prefix20(s: string): string {
    if |s| <= 20 then s else s[..20]
  }

  /** An execution never seen before, named by its specification. */
  function NewExecution(hash: string, generation: int): ExecutionRef {
    ExecutionRef(Prefix20(hash), hash, generation, Pending)
  }

  /** Less than this time has passed since the current provisioning, or else the composition, began. */
  predicate InTime(c: Composition, now: int, limit: int) {
    match c.schedule.provisionStartedAt
    case Some(at) => now - at < limit
    case None => now - c.schedule.createdAt < limit
  }

  /** A published component that is no longer desired, and whose workload is recorded. */
  predicate Leaves(c: Composition, k: string) {
    k in c.runtime.published && k !in c.overrides && k in c.runtime.workloads && c.runtime.workloads[k].namespace != ""
  }

  /** The desired selection is published, and what leaves it has moved from the workloads to what retires. */
  ghost predicate MovedOut(before: Composition, after: Composition) {
    && after.runtime == before.runtime.(published := before.overrides,
                                        retiring := after.runtime.retiring, workloads := after.runtime.workloads)
    && (forall k :: k in after.runtime.retiring <==> k in before.runtime.retiring || Leaves(before, k))
    && (forall k :: k in after.runtime.retiring ==>
          after.runtime.retiring[k] == if Leaves(before, k) then before.runtime.workloads[k] else before.runtime.retiring[k])
    && (forall k :: k in after.runtime.workloads <==> k in before.runtime.workloads && !Leaves(before, k))
    && (forall k :: k in after.runtime.workloads ==> after.runtime.workloads[k] == before.runtime.workloads[k])
  }

  lemma RetiredMovedOut(c: Composition)
    ensures MovedOut(c, MoveRetired(c))
  {
  }

  /** Every endpoint is reported ready, on the desired selection and with nothing left to retire. */
  predicate Announced(c: Composition) {
    && c.phase == Ready && c.lastError.None? && c.operation.status == OperationSucceeded
    && c.runtime.published == c.overrides && c.runtime.retiring == map[]
    && "public" in c.endpoints && forall k :: k in c.endpoints ==> c.endpoints[k].ready
  }

  /** A pass over a routed composition ended well: a failed check is tolerated, a retirement goes on, or all is announced. */
  predicate ServesOn(c: Composition) {
    && c.runtime.routingActive && c.pendingVerification.Some?
    && (if !c.pendingVerification.value.passed then c.operation.status != OperationSucceeded && c.lastError.None?
        else c.runtime.retiring != map[] || Announced(c))
  }

  /** A pass over an endpoint-free composition ended well: a retirement goes on, or everything is done or running. */
  predicate SettledWithout(c: Composition, completed: bool) {
    c.runtime.retiring != map[] ||
    (c.phase == (if completed then Completed else Ready) && c.lastError.None? && c.operation.status == OperationSucceeded)
  }

  /** Workloads of components that left the desired selection move to the retiring inventory. */
  function MoveRetired(c: Composition): Composition {
    var leaving := set k | k in c.runtime.published && k !in c.overrides && WorkloadFor(c, k).namespace != "";
    c.(runtime := c.runtime.(
      retiring := c.runtime.retiring + map k | k in leaving :: WorkloadFor(c, k),
      workloads := c.runtime.workloads - leaving,
      published := c.overrides))
  }

  function StartedRow(c: Composition): Composition {
    SetReady(c, false).(
      phase := if c.operation.kind == "update" then Updating else Provisioning,
      operation := if c.operation.status == OperationSucceeded then c.operation else c.operation.(status := OperationRunning))
  }

  function StartedAt(c: Composition): int {
    if c.schedule.provisionStartedAt.Some? then c.schedule.provisionStartedAt.value else c.schedule.createdAt
  }

  function Answered(planned: seq<MessageSubscription>, ready: set<string>): seq<MessageSubscription> {
    seq(|planned|, i requires 0 <= i < |planned| => planned[i].(ready := planned[i].name in ready))
  }

  /** What a runtime reports about one workload. */
  datatype WorkloadObservation = WorkloadObservation(ready: bool, failed: bool, state: Option<ExecutionState>)

  lemma OneVisited(plan: Plan, done: set<string>, k: string)
    ensures NeedsRoutes(plan, done + {k}) <==> NeedsRoutes(plan, done) || ServesRequests(plan.profiles, k)
  {
    if ServesRequests(plan.profiles, k) {
      assert k in done + {k};
    }
    if j :| j in done && ServesRequests(plan.profiles, j) {
      assert j in done + {k};
    }
  }

  /** What came of asking for one component: the report, or a failure in place of one. */
  datatype Answer = Answer(seen: WorkloadObservation, failure: bool)

  /** The statuses that the answers leave in the copy. */
  ghost predicate StatusesOf(c: Composition, answers: map<string, Answer>) {
    forall k :: k in answers ==> k in c.components && c.components[k] == StatusOf(JobIn(c, k), answers[k].seen)
  }

  /** Some answer is of this kind. */
  ghost predicate Any(answers: map<string, Answer>, kind: (string, Answer) -> bool) {
    exists k :: k in answers && kind(k, answers[k])
  }

  predicate NotReady(k: string, a: Answer) { !a.seen.ready }

  predicate OnHold(k: string, a: Answer) { !a.seen.ready && a.seen.state == Some(ExecutionSuspended) }

  predicate Awaited(k: string, a: Answer) { !a.seen.ready && a.seen.state != Some(ExecutionSuspended) }

  predicate ReportsFailure(k: string, a: Answer) { a.seen.failed }

  predicate GotNoReport(k: string, a: Answer) { a.failure }

  /** Jobs that have not succeeded. */
  function Unfinished(plan: Plan): (string, Answer) -> bool {
    (k: string, a: Answer) => k in plan.profiles && IsJob(plan.profiles[k]) && a.seen.state != Some(Succeeded)
  }

  /** The tally says exactly what the answers say. */
  ghost predicate Sums(r: Readiness, plan: Plan, answers: map<string, Answer>) {
    && (r.allReady <==> !Any(answers, NotReady))
    && (r.allCompleted <==> !Any(answers, Unfinished(plan)))
    && (r.anySuspended <==> Any(answers, OnHold))
    && (r.waitingForOther <==> Any(answers, Awaited))
    && (r.hasEndpoint <==> NeedsRoutes(plan, answers.Keys))
    && (r.failed <==> Any(answers, ReportsFailure))
    && (r.failures <==> Any(answers, GotNoReport))
  }

  /** How a pass over a wanted composition ends well, by what the runtime answered for its components. */
  ghost predicate EndsWell(c: Composition, answers: map<string, Answer>) {
    && c.plan.Some? && answers.Keys == c.overrides.Keys
    && (if Any(answers, NotReady) then
          && !Any(answers, ReportsFailure) && !Any(answers, GotNoReport) && c.lastError.None?
          && (!Any(answers, Awaited) ==> c.phase == Suspended && c.operation.status == OperationSucceeded)
        else if NeedsRoutes(c.plan.value, c.overrides.Keys) then ServesOn(c)
        else SettledWithout(c, !Any(answers, Unfinished(c.plan.value))))
  }

  /** How the pass ends well, by the tally. */
  ghost predicate EndsAs(c: Composition, r: Readiness) {
    if !r.allReady then
      && !r.failed && !r.failures && c.lastError.None?
      && (!r.waitingForOther ==> c.phase == Suspended && c.operation.status == OperationSucceeded)
    else if r.hasEndpoint then ServesOn(c)
    else SettledWithout(c, r.allCompleted)
  }

  lemma EndsAsSummed(seen: Composition, c: Composition, answers: map<string, Answer>, r: Readiness)
    requires r in Tallies(seen, answers) && EndsAs(c, r) && answers.Keys == seen.overrides.Keys
    requires Intent(c) == Intent(seen)
    ensures EndsWell(c, answers)
  {
  }

  lemma AnyMore(answers: map<string, Answer>, k: string, answer: Answer, kind: (string, Answer) -> bool)
    requires k !in answers
    ensures Any(answers[k := answer], kind) <==> Any(answers, kind) || kind(k, answer)
  {
    var more := answers[k := answer];
    if kind(k, answer) {
      assert k in more && more[k] == answer;
    }
    if j :| j in answers && kind(j, answers[j]) {
      assert j in more && more[j] == answers[j];
    }
  }

  lemma SumsNone(plan: Plan)
    ensures Sums(Readiness(true, true, false, false, plan.baseline.verificationKind != "none", false, false), plan, map[])
  {
  }

  /** What the loop says after these answers. */
  ghost function Tallies(c: Composition, answers: map<string, Answer>): iset<Readiness> {
    iset r: Readiness | c.plan.Some? && Sums(r, c.plan.value, answers) && StatusesOf(c, answers)
  }

  lemma TallyStays(c: Composition, d: Composition, answers: map<string, Answer>, r: Readiness)
    requires r in Tallies(c, answers) && d.plan == c.plan && d.components == c.components
    ensures r in Tallies(d, answers)
  {
  }

  lemma SumsMore(r: Readiness, plan: Plan, answers: map<string, Answer>, k: string, answer: Answer)
    requires Sums(r, plan, answers) && k !in answers && k in plan.profiles
    ensures var profile := plan.profiles[k];
            Sums(Tally(r, IsJob(profile), profile.HasEndpoint(), answer.failure, answer.seen), plan, answers[k := answer])
  {
    var more := answers[k := answer];
    assert more.Keys == answers.Keys + {k};
    OneVisited(plan, answers.Keys, k);
    AnyMore(answers, k, answer, NotReady);
    AnyMore(answers, k, answer, Unfinished(plan));
    AnyMore(answers, k, answer, OnHold);
    AnyMore(answers, k, answer, Awaited);
    AnyMore(answers, k, answer, ReportsFailure);
    AnyMore(answers, k, answer, GotNoReport);
  }

  lemma TallyMore(c: Composition, d: Composition, answers: map<string, Answer>, k: string, r: Readiness, answer: Answer)
    requires r in Tallies(c, answers) && k !in answers && d.plan == c.plan && k in c.plan.value.profiles
    requires d.components == c.components[k := StatusOf(IsJob(c.plan.value.profiles[k]), answer.seen)]
    ensures var profile := c.plan.value.profiles[k];
            Tally(r, IsJob(profile), profile.HasEndpoint(), answer.failure, answer.seen) in Tallies(d, answers[k := answer])
  {
    SumsMore(r, c.plan.value, answers, k, answer);
  }

  /** All ready means that every status is good. */
  lemma TallyMeans(c: Composition, answers: map<string, Answer>, r: Readiness)
    requires r in Tallies(c, answers) && answers.Keys == c.overrides.Keys
    ensures if r.allReady then AllGood(c, answers.Keys) else r.anySuspended || r.waitingForOther
    ensures r.hasEndpoint <==> !EndpointFree(c)
  {
    if k :| k in answers && NotReady(k, answers[k]) {
      assert OnHold(k, answers[k]) || Awaited(k, answers[k]);
    }
    forall k | k in answers && r.allReady
      ensures k in c.components && GoodStatus(c.components[k])
    {
      assert !NotReady(k, answers[k]);
    }
  }

  /** Between the two, these components were asked for once each, and no others. */
  ghost predicate AskedOnce(before: seq<Event>, after: seq<Event>, names: set<string>) {
    forall k :: AskedIn(after, k) == AskedIn(before, k) + if k in names then 1 else 0
  }

  lemma AskedMore(start: seq<Event>, before: seq<Event>, after: seq<Event>, names: set<string>, k: string)
    requires AskedOnce(start, before, names) && k !in names && exists x :: after == before + [WorkloadEnsured(k, x)]
    ensures AskedOnce(start, after, names + {k})
  {
    var x :| after == before + [WorkloadEnsured(k, x)];
    OneMoreCall(before, WorkloadEnsured(k, x));
  }

  /** Between the two, the deletion of these components was asked for once each, and nothing else was. */
  ghost predicate DeletedOnce(before: seq<Event>, after: seq<Event>, names: set<string>) {
    && before <= after && (forall e :: e in after[|before|..] ==> e.WorkloadDeleted?)
    && forall k :: DeletedIn(after, k) == DeletedIn(before, k) + if k in names then 1 else 0
  }

  /** Between the two, a check of this generation was made, with this result. */
  ghost predicate CheckedSince(before: seq<Event>, after: seq<Event>, generation: int, passed: bool) {
    before <= after && Verified(generation, passed) in after[|before|..]
  }

  lemma CheckedThen(before: seq<Event>, after: seq<Event>, generation: int, passed: bool)
    requires before + [Verified(generation, passed)] <= after
    ensures CheckedSince(before, after, generation, passed)
  {
    assert after[|before|..][0] == Verified(generation, passed);
  }

  lemma CheckedStill(before: seq<Event>, middle: seq<Event>, after: seq<Event>, generation: int, passed: bool)
    requires CheckedSince(before, middle, generation, passed) && middle <= after
    ensures CheckedSince(before, after, generation, passed)
  {
    assert after[|before|..] == middle[|before|..] + after[|middle|..];
  }

  lemma DeletedMore(start: seq<Event>, before: seq<Event>, names: set<string>, k: string, at: int)
    requires DeletedOnce(start, before, names) && k !in names
    ensures DeletedOnce(start, before + [WorkloadDeleted(k, at)], names + {k})
  {
    OneMoreCall(before, WorkloadDeleted(k, at));
  }

  lemma Moved(todo: set<string>, done: set<string>, k: string)
    requires k in todo && todo !! done
    ensures (todo - {k}) + (done + {k}) == todo + done && todo - {k} !! done + {k} && todo - {k} < todo
  {
  }

  function WithExecution(c: Composition, k: string, e: ExecutionRef): Composition {
    c.(runtime := c.runtime.(executions := c.runtime.executions[k := e]))
  }

  function WithWorkload(c: Composition, k: string, ref: WorkloadRef): Composition {
    if ref.namespace == "" then c else c.(runtime := c.runtime.(workloads := c.runtime.workloads[k := ref]))
  }

  function WithState(c: Composition, k: string, state: ExecutionState): Composition
    requires k in c.runtime.executions
  {
    WithExecution(c, k, c.runtime.executions[k].(state := state))
  }

  function StateOf(seen: WorkloadObservation): ExecutionState {
    if seen.state.Some? then seen.state.value else Pending
  }

  function StatusOf(job: bool, seen: WorkloadObservation): ComponentStatus {
    if seen.ready then
      if job && seen.state == Some(Succeeded) then StatusExecution(Succeeded) else StatusReady
    else if job then StatusExecution(StateOf(seen))
    else StatusProvisioning
  }

  function Tally(r: Readiness, job: bool, endpoint: bool, failure: bool, seen: WorkloadObservation): Readiness {
    Readiness(
      r.allReady && seen.ready,
      r.allCompleted && (job ==> seen.state == Some(Succeeded)),
      r.anySuspended || (!seen.ready && seen.state == Some(ExecutionSuspended)),
      r.waitingForOther || (!seen.ready && seen.state != Some(ExecutionSuspended)),
      r.hasEndpoint || endpoint,
      r.failed || seen.failed,
      r.failures || failure)
  }

  /** The readiness of an endpoint-free composition: done once every workload is. */
  function SettledRow(c: Composition, phase: Phase, next: int): Composition {
    c.(phase := phase,
       lastError := None,
       operation := c.operation.(status := OperationSucceeded),
       schedule := c.schedule.(attempts := 0, nextAttemptAt := next))
  }

  /** The first row that reports its endpoints ready. */
  function ReadyRow(c: Composition, next: int): Composition {
    SetReady(SettledRow(c, Ready, next).(runtime := c.runtime.(published := c.overrides)), true)
  }

  function FailedRow(c: Composition, message: string, next: int): Composition {
    SetReady(c, false).(
      phase := if c.deletionRequested then c.phase else Failed,
      lastError := Some(message),
      operation := if c.operation.status == OperationSucceeded then c.operation else c.operation.(status := OperationFailed),
      schedule := c.schedule.(attempts := c.schedule.attempts + 1, nextAttemptAt := next))
  }

  /** The copy tells of a failure, and nothing in it is ready. */
  ghost predicate FailureTold(before: Composition, after: Composition, message: string) {
    && after.lastError == Some(message)
    && after.phase == (if before.deletionRequested then before.phase else Failed)
    && after.endpoints.Keys == before.endpoints.Keys
    && (forall k :: k in after.endpoints ==> after.endpoints[k] == Endpoint(before.endpoints[k].host, false))
    && after.schedule.attempts == before.schedule.attempts + 1
    && after == before.(phase := after.phase, lastError := after.lastError, endpoints := after.endpoints,
                        operation := after.operation, schedule := after.schedule)
  }

  /** The copy is as the pass left it, without an error unless the pass was done, and the next attempt lies ahead. */
  ghost predicate OutcomeTold(before: Composition, after: Composition, done: bool, recheck: Option<int>, now: int, interval: int) {
    && after == before.(lastError := if done then before.lastError else None, schedule := after.schedule)
    && after.schedule.attempts == before.schedule.attempts
    && after.schedule.nextAttemptAt ==
         (if recheck.Some? then now + recheck.value
          else if before.schedule.nextAttemptAt <= now then now + interval
          else before.schedule.nextAttemptAt)
  }

  function DestroyedRow(c: Composition): Composition {
    c.(phase := Destroyed, lastError := None, schedule := c.schedule.(attempts := 0), operation := c.operation.(status := OperationSucceeded))
  }

  function EvidenceFor(c: Composition, passed: bool): Evidence {
    Evidence(c.generation, passed, if c.baselineObservation.Some? then c.baselineObservation.value.fingerprint else "")
  }

  function StatusOfHops(hops: set<string>): map<string, ComponentStatus> {
    map k | k in hops :: StatusReady
  }

  function Unready(subscriptions: seq<MessageSubscription>): seq<MessageSubscription> {
    seq(|subscriptions|, i requires 0 <= i < |subscriptions| => subscriptions[i].(ready := false))
  }

  /** Observations of a deleted composition: not ready, same selection, same executions. */
  ghost function Unwinding(base: Composition): iset<Composition> {
    iset c: Composition |
      base.deletionRequested && !HasReadyEndpoint(c) && c.runtime.published == base.runtime.published &&
      c.runtime.executions == base.runtime.executions
  }

  /** Everything in the runtime state but the workload and execution inventories. */
  predicate SameRoutes(a: RuntimeState, b: RuntimeState) {
    b == a.(workloads := b.workloads, executions := b.executions)
  }

  function Draining(c: Composition, until: int): Composition {
    c.(runtime := c.runtime.(drainUntil := Some(until)), lastError := None)
  }

  lemma DrainLawful(w: World, base: Composition, c: Composition, until: int)
    requires c in Copies(w, base) && c in Unwinding(base) && c.phase == Destroying && Closed(w) && !c.runtime.routesRemoved
    requires Elapsed(Quiet(w), w.setting.drain, until)
    ensures Draining(c, until) in Copies(w, base) && Draining(c, until) in Unwinding(base)
  {
    assert TeardownLawful(w, Draining(c, until));
  }

  function Removed(c: Composition): Composition {
    c.(runtime := c.runtime.(routesRemoved := true))
  }

  lemma RemovalLawful(w: World, base: Composition, c: Composition)
    requires c in Copies(w, base) && c in Unwinding(base) && c.phase == Destroying
    requires c.runtime.drainUntil.Some? && c.runtime.drainUntil.value <= w.now
    ensures Removed(c) in Copies(w, base) && Removed(c) in Unwinding(base)
  {
    assert TeardownLawful(w, Removed(c));
  }

  function BegunDestroy(c: Composition): Composition {
    SetReady(c.(phase := Destroying, operation := c.operation.(status := OperationRunning)), false)
  }

  lemma DestroyBegun(w: World, base: Composition, c: Composition)
    requires c in Copies(w, base) && c.deletionRequested && c.runtime == base.runtime
    ensures BegunDestroy(c) in Copies(w, base) && BegunDestroy(c) in Unwinding(base)
  {
    Reworded(w, base, c, BegunDestroy(c));
  }

  /** A copy stays one while only its inventories and its wording change: phase, status, error, schedule. */
  lemma Reworded(w: State, base: Composition, c: Composition, d: Composition)
    requires c in Copies(w, base) && Intent(d) == Intent(c) && SameRoutes(c.runtime, d.runtime)
    requires d.phase == Destroyed ==> c.deletionRequested && !Meshed(c.(phase := Destroying))
    ensures d in Copies(w, base)
  {
  }

  /** Observations of a composition that is wanted: not yet ready, and no busy execution forgotten or renamed. */
  ghost function Converging(base: Composition): iset<Composition> {
    iset c: Composition |
      !c.deletionRequested && !HasReadyEndpoint(c) && c.phase != Destroyed && ReplacesOnlyIdle(base, c)
  }

  /** Copies in a readiness loop that has visited every component but `todo`. */
  ghost function Visited(base: Composition, todo: set<string>): iset<Composition> {
    iset c: Composition |
      && c.plan.Some?
      && SameRoutes(base.runtime, c.runtime)
      && (c.messageIsolation ==> Recorded(base) && Recorded(c))
      && forall k :: k in todo ==>
           (k in c.runtime.executions <==> k in base.runtime.executions) &&
           (k in c.runtime.executions ==> c.runtime.executions[k] == base.runtime.executions[k])
  }

  /** These components were found ready. */
  ghost predicate AllGood(c: Composition, done: set<string>) {
    forall k :: k in done ==> k in c.components && GoodStatus(c.components[k])
  }

  /** What leaves the selection joins the retirement, and nothing selected is in it. */
  lemma MoveRetiredLawful(w: World, c: Composition)
    requires RetirementLawful(w, c)
    ensures RetirementLawful(w, MoveRetired(c)) && (AtStake(MoveRetired(c)) ==> AtStake(c))
  {
  }

  lemma MoveRetiredKept(w: World, base: Composition, c: Composition)
    requires c in Copies(w, base) && c in Converging(base) && Entering(w, base, MoveRetired(c))
    ensures MoveRetired(c) in Copies(w, base) && MoveRetired(c) in Converging(base)
  {
    MoveRetiredLawful(w, c);
    assert TeardownLawful(w, MoveRetired(c));
  }

  function Activation(c: Composition): Composition {
    c.(runtime := c.runtime.(routingActive := true))
  }

  lemma ActivationLawful(w: World, c: Composition)
    requires Lawful(w, c) && c.phase != Destroyed
    ensures Lawful(w, Activation(c))
  {
  }

  lemma ActivationKept(w: World, base: Composition, c: Composition)
    requires c in Copies(w, base) && c in Converging(base)
    ensures Activation(c) in Copies(w, base) && Activation(c) in Converging(base)
  {
    ActivationLawful(w, c);
  }

  /** What the workload and routing stages of a pass leave alone. */
  function Fixed(c: Composition): ((string, int, bool, Option<Plan>, Selection, bool), Option<BaselineObservation>) {
    (Intent(c), c.baselineObservation)
  }

  /** The copy without one retired workload; the deadline goes with the last one where `clear` says so. */
  function Released(c: Composition, k: string, clear: bool): Composition {
    var rest := c.runtime.retiring - {k};
    c.(runtime := c.runtime.(
      retiring := rest,
      retirementDrainUntil := if clear && rest == map[] then None else c.runtime.retirementDrainUntil))
  }

  /** All of the copy but the retiring inventory and its deadline. */
  function Besides(c: Composition): Composition {
    c.(runtime := c.runtime.(retiring := map[], retirementDrainUntil := None))
  }

  /** Nothing but these retired workloads left the copy, and the deadline with the last of them where `clear` says so. */
  ghost predicate Shed(before: Composition, after: Composition, gone: set<string>, clear: bool) {
    && Besides(after) == Besides(before)
    && gone <= before.runtime.retiring.Keys && after.runtime.retiring == before.runtime.retiring - gone
    && after.runtime.retirementDrainUntil ==
         if clear && gone != {} && after.runtime.retiring == map[] then None else before.runtime.retirementDrainUntil
  }

  /** What a pass does to a retirement: it starts the deadline, or lets it run, or deletes up to one that is not absent yet. */
  ghost predicate Retires(before: Composition, after: Composition, gone: set<string>, waiting: set<string>, done: bool, now: int, drain: int) {
    var until := before.runtime.retirementDrainUntil;
    if before.runtime.retiring == map[] then done && after == before && gone + waiting == {}
    else if until.None? then
      done && after == before.(runtime := before.runtime.(retirementDrainUntil := Some(now + drain))) && gone + waiting == {}
    else if now < until.value then done && after == before && gone + waiting == {}
    else
      && Shed(before, after, gone, true) && waiting <= after.runtime.retiring.Keys
      && (done ==> waiting != {} || after.runtime.retiring == map[])
  }

  lemma ShedMore(before: Composition, middle: Composition, gone: set<string>, k: string, clear: bool)
    requires Shed(before, middle, gone, clear) && k in middle.runtime.retiring
    ensures k !in gone && Shed(before, Released(middle, k, clear), gone + {k}, clear)
  {
  }

  lemma ReleasedLawful(w: State, base: Composition, c: Composition, k: string, clear: bool)
    requires RetirementLawful(w, c) && Reckoned(w, base, c) && c.plan == base.plan && (clear || EndpointFree(base))
    ensures RetirementLawful(w, Released(c, k, clear)) && Reckoned(w, base, Released(c, k, clear))
  {
  }

  lemma ReleasedKept(w: World, base: Composition, c: Composition, k: string, clear: bool)
    requires c in Copies(w, base) && c in Converging(base) && (clear || EndpointFree(base))
    ensures Released(c, k, clear) in Copies(w, base) && Released(c, k, clear) in Converging(base)
  {
    ReleasedLawful(w, base, c, k, clear);
  }

  function WithDeadline(c: Composition, until: int): Composition {
    c.(runtime := c.runtime.(retirementDrainUntil := Some(until)))
  }

  lemma DeadlineKept(w: World, base: Composition, c: Composition, until: int)
    requires c in Copies(w, base) && c in Converging(base) && c.runtime.retiring != map[]
    requires c.runtime.published == c.overrides && w.now + w.setting.drain <= until
    requires w in Without(c.runtime.published) && !EndpointFree(base)
    ensures WithDeadline(c, until) in Copies(w, base) && WithDeadline(c, until) in Converging(base)
  {
  }

  /** Retired workloads may go now: after their drain, or at once where no routes are needed. */
  ghost predicate DueNow(w: State, c: Composition) {
    Undercut(w.h) || Astray(w.h) || EndpointFree(c) ||
    (c.runtime.retirementDrainUntil.Some? && c.runtime.retirementDrainUntil.value <= w.now)
  }

  lemma DeletionPermitted(w: World, base: Composition, c: Composition, k: string)
    requires c in Copies(w, base) && DueNow(w, c) && k in c.runtime.retiring && base.runtime.published == c.runtime.published
    ensures Permitted(w.h, WorkloadDeleted(k, w.now), w.setting)
  {
    if !Undercut(w.h) && !Astray(w.h) && EndpointFree(c) {
      assert Silent(c.plan, k);
      SilentNeverRouted(w.h, w.row, k, w.setting);
    }
  }

  lemma ReadyBacked(base: Composition, c: Composition, next: int)
    requires c in Converging(base)
    requires c.runtime.retiring == map[] && c.runtime.published == c.overrides && AllGood(c, c.overrides.Keys)
    requires c.pendingVerification == Some(EvidenceFor(c, true))
    ensures Backed(ReadyRow(c, next)) && ReplacesOnlyIdle(base, ReadyRow(c, next))
  {
  }

  lemma Readied(w: World, base: Composition, c: Composition, next: int)
    requires c in Copies(w, base) && c in Converging(base)
    requires c.runtime.retiring == map[] && c.runtime.published == c.overrides && AllGood(c, c.overrides.Keys)
    requires c.pendingVerification == Some(EvidenceFor(c, true)) && CheckedFor(w.h, c, w.setting)
    ensures ReadyRow(c, next) in Savables(w, base)
  {
    ReadyBacked(base, c, next);
    Reworded(w, base, c, ReadyRow(c, next));
    StillChecked(w.h, c, ReadyRow(c, next), w.setting);
  }

  lemma StillChecked(h: History, c: Composition, d: Composition, setting: Setting)
    requires CheckedFor(h, c, setting) && d.generation == c.generation && d.plan == c.plan
    requires d.baselineObservation == c.baselineObservation
    ensures CheckedFor(h, d, setting)
  {
  }

  /** The worlds whose provider runs without anything but this selection, and gets nothing else back by itself. */
  ghost function Without(selection: Selection): iset<World> {
    iset w: World | OnlyRouted(w, selection)
  }

  ghost predicate OnlyRouted(w: World, selection: Selection) {
    forall k :: k !in selection ==> Gone(w, k)
  }

  /** Between the two, the deletion of the namespace was asked for. */
  ghost predicate NamespaceRequested(before: seq<Event>, after: seq<Event>) {
    exists i :: |before| <= i < |after| && after[i].NamespaceDeleted?
  }

  lemma Requested(start: seq<Event>, before: seq<Event>, after: seq<Event>, asked: Event)
    requires start <= before && before + [asked] <= after && asked.NamespaceDeleted?
    ensures NamespaceRequested(start, after)
  {
    assert after[|before|] == (before + [asked])[|before|];
  }

  /** A routed composition with its drain under way: it began in this pass, or has not ended yet. */
  predicate Drains(before: Composition, after: Composition, now: int) {
    && after.runtime.routingActive && !after.runtime.routesRemoved && after.runtime.drainUntil.Some?
    && (before.runtime.drainUntil.Some? ==> after.runtime.drainUntil == before.runtime.drainUntil && now < after.runtime.drainUntil.value)
  }

  /** The deletion of the namespace under the identity that all recorded workloads agree on. */
  ghost predicate NamespaceAsked(e: Event, c: Composition) {
    && e.NamespaceDeleted?
    && (forall k :: k in c.runtime.retiring ==> OfNamespace(c.runtime.retiring[k], c, e.uid))
    && (forall k :: k in c.runtime.workloads && k !in c.runtime.retiring ==> OfNamespace(c.runtime.workloads[k], c, e.uid))
  }

  /** A recorded workload that is in the namespace of the composition, under its token, and of this identity where one is known. */
  predicate OfNamespace(ref: WorkloadRef, c: Composition, uid: string) {
    ref.namespace != "" ==>
      ref.namespace == NamespaceForID(c.id) && ref.ownershipToken == c.runtime.ownershipToken &&
      (ref.namespaceUID == "" || ref.namespaceUID == uid)
  }

  lemma AgreeingMeans(c: Composition, uid: string)
    requires Agreeing(OwnedWorkloads(c), NamespaceForID(c.id), c.runtime.ownershipToken, uid)
    ensures NamespaceAsked(NamespaceDeleted(uid), c)
  {
    var owned := OwnedWorkloads(c);
    assert forall k :: k in c.runtime.retiring ==> k in owned && owned[k] == c.runtime.retiring[k];
    assert forall k :: k in c.runtime.workloads && k !in c.runtime.retiring ==> k in owned && owned[k] == c.runtime.workloads[k];
  }

  /** Everything is ready, and the stored selection is the desired one and all that is routed. */
  ghost predicate InRoutes(w: World, base: Composition, c: Composition) {
    && c.plan.Some? && !EndpointFree(c)
    && c.runtime.published == c.overrides && base.runtime.published == c.runtime.published
    && w in Without(c.runtime.published)
    && AllGood(c, c.overrides.Keys)
  }

  lemma StillInRoutes(w: World, v: World, base: Composition, c: Composition, d: Composition)
    requires InRoutes(w, base, c) && Keeps(w, v) && d == c.(baselineObservation := d.baselineObservation)
    ensures InRoutes(v, base, d)
  {
  }

  /** Copies that may be saved: readiness is backed and checked, executions are kept, destruction is complete. */
  ghost function Savables(w: World, base: Composition): iset<Composition> {
    iset c: Composition |
      && c in Copies(w, base)
      && HonestReadiness(c) && (HasReadyEndpoint(c) ==> CheckedFor(w.h, c, w.setting))
      && ReplacesOnlyIdle(base, c)
      && (c.phase == Destroyed ==> Dismantled(w.h, c, w.setting.id))
  }

  lemma UnreadySavable(w: World, base: Composition, c: Composition)
    requires c in Copies(w, base) && !HasReadyEndpoint(c) && ReplacesOnlyIdle(base, c)
    requires c.phase == Destroyed ==> Dismantled(w.h, c, w.setting.id)
    ensures c in Savables(w, base)
  {
  }

  lemma Rescheduled(w: World, base: Composition, c: Composition, d: Composition)
    requires c in Savables(w, base) && d == c.(schedule := d.schedule)
    ensures d in Savables(w, base)
  {
    Reworded(w, base, c, d);
    if HasReadyEndpoint(c) {
      StillChecked(w.h, c, d, w.setting);
    }
  }

  /** The fingerprint last observed. */
  function Seen(check: Check): Option<string> {
    match check
    case Unchecked(seen) => seen
    case Checked(before, _, _) => before
    case Confirmed(_, _, _, after) => Some(after)
  }

  /** The baseline of this composition can be observed. */
  predicate Observing(setting: Setting, c: Composition) {
    setting.observer && !VerificationNone(c)
  }

  lemma ExecutionStarted(w: World, base: Composition, c: Composition, k: string, e: ExecutionRef, todo: set<string>)
    requires k in todo && c in Copies(w, base) && c in Converging(base) && c in Visited(base, todo)
    requires k in c.runtime.executions ==> !Busy(c.runtime.executions[k], Scheduled(c, k))
    ensures var d := WithExecution(c, k, e);
            d in Copies(w, base) && d in Converging(base) && d in Visited(d, todo) && d in Converging(d)
  {
    Reworded(w, base, c, WithExecution(c, k, e));
  }

  lemma WorkloadVisited(base: Composition, c: Composition, k: string, ref: WorkloadRef, todo: set<string>)
    requires c in Converging(base) && c in Visited(base, todo)
    ensures var d := WithWorkload(c, k, ref);
            d in Converging(base) && d in Visited(base, todo) && Fixed(d) == Fixed(c) && d.components == c.components
  {
  }

  lemma WorkloadRecorded(w: World, base: Composition, c: Composition, k: string, ref: WorkloadRef, todo: set<string>)
    requires c in Copies(w, base) && c in Converging(base) && c in Visited(base, todo)
    ensures var d := WithWorkload(c, k, ref);
            && d in Copies(w, base) && d in Converging(base) && d in Visited(base, todo)
            && Fixed(d) == Fixed(c) && d.components == c.components
  {
    WorkloadVisited(base, c, k, ref, todo);
    if ref.namespace != "" {
      Reworded(w, base, c, WithWorkload(c, k, ref));
    }
  }

  lemma ExecutionObserved(w: World, base: Composition, c: Composition, k: string, state: ExecutionState, todo: set<string>)
    requires c in Copies(w, base) && c in Converging(base) && c in Visited(base, todo) && k in c.runtime.executions
    ensures var d := WithState(c, k, state);
            d in Copies(w, base) && d in Converging(base) && d in Visited(base, todo - {k})
  {
    Reworded(w, base, c, WithState(c, k, state));
  }

  lemma StatusRecorded(w: World, base: Composition, c: Composition, k: string, status: ComponentStatus, todo: set<string>)
    requires c in Copies(w, base) && c in Converging(base) && c in Visited(base, todo)
    ensures var d := c.(components := c.components[k := status]);
            d in Copies(w, base) && d in Converging(base) && d in Visited(base, todo - {k})
  {
    Reworded(w, base, c, c.(components := c.components[k := status]));
  }

  /** The copy with everything the runtime reported about one component. */
  function Reported(c: Composition, k: string, job: bool, ref: WorkloadRef, seen: WorkloadObservation): Composition
    requires job ==> k in c.runtime.executions
  {
    var d := WithWorkload(c, k, ref);
    var e := if job then WithState(d, k, StateOf(seen)) else d;
    e.(components := e.components[k := StatusOf(job, seen)])
  }

  lemma ReportKept(w: World, base: Composition, c: Composition, k: string, job: bool, ref: WorkloadRef, seen: WorkloadObservation, todo: set<string>)
    requires c in Copies(w, base) && c in Converging(base) && c in Visited(base, todo) && (job ==> k in c.runtime.executions)
    ensures var d := Reported(c, k, job, ref, seen);
            && d in Copies(w, base) && d in Converging(base) && d in Visited(base, todo - {k})
            && Fixed(d) == Fixed(c) && d.components == c.components[k := StatusOf(job, seen)]
            && (job ==> k in d.runtime.executions && d.runtime.executions[k].state == StateOf(seen))
  {
    WorkloadRecorded(w, base, c, k, ref, todo);
    var d := WithWorkload(c, k, ref);
    if job {
      ExecutionObserved(w, base, d, k, StateOf(seen), todo);
      StatusRecorded(w, base, WithState(d, k, StateOf(seen)), k, StatusOf(job, seen), todo - {k});
    } else {
      StatusRecorded(w, base, d, k, StatusOf(job, seen), todo);
    }
  }

  /** What the copy tells of a component after the runtime answered for it. */
  ghost predicate Tells(before: Composition, after: Composition, k: string, job: bool, ref: WorkloadRef, seen: WorkloadObservation) {
    && k in after.components
    && after.components[k] ==
         (if seen.ready && job && seen.state == Some(Succeeded) then StatusExecution(Succeeded)
          else if seen.ready then StatusReady
          else if !job then StatusProvisioning
          else if seen.state.None? then StatusExecution(Pending)
          else StatusExecution(seen.state.value))
    && WorkloadFor(after, k) == (if ref.namespace == "" then WorkloadFor(before, k) else ref)
    && (forall other :: other != k ==> WorkloadFor(after, other) == WorkloadFor(before, other))
    && (job ==>
          && k in before.runtime.executions && k in after.runtime.executions
          && after.runtime.executions[k] ==
               before.runtime.executions[k].(state := if seen.state.None? then Pending else seen.state.value))
  }

  lemma ReportTells(c: Composition, k: string, job: bool, ref: WorkloadRef, seen: WorkloadObservation)
    requires job ==> k in c.runtime.executions
    ensures Tells(c, Reported(c, k, job, ref, seen), k, job, ref, seen)
  {
  }

  /** The names of the planned subscriptions. */
  function Planned(c: Composition): set<string> {
    if c.plan.Some? then set s | s in c.plan.value.subscriptions :: s.name else {}
  }

  lemma AnsweredReady(planned: seq<MessageSubscription>, ready: set<string>)
    requires forall i :: 0 <= i < |planned| ==> Answered(planned, ready)[i].ready
    ensures forall s :: s in planned ==> s.name in ready
  {
    forall s | s in planned
      ensures s.name in ready
    {
      var i :| 0 <= i < |planned| && planned[i] == s;
      assert Answered(planned, ready)[i].ready;
    }
  }

  function Loaded(row: Composition): Composition {
    row.(pendingVerification := None)
  }

  class Reconciler {
    const messaging: bool          // a messaging provider is configured
    const provisionTimeout: int
    const interval: int
    const digest: (Component, string) -> string

    var w: World
    var c: Composition             // the in-memory copy
    ghost var base: Composition    // the row this copy was loaded from or last saved as

    /** A run starts with a freshly created row among any others. */
    constructor (setting: Setting, others: seq<Composition>, now: int, row: Composition,
                 messaging: bool, provisionTimeout: int, interval: int, digest: (Component, string) -> string)
      requires row.id == setting.id && Fresh(row) && OtherRows(others, setting.id)
      ensures w == Start(setting, others, now, row) && base == row && c == Loaded(row) && Holding()
    {
      ghost var start := Start(setting, others, now, row);
      w := State(setting, row, others, now, None, Begin(row));
      base := row;
      c := Loaded(row);
      this.messaging, this.provisionTimeout, this.interval, this.digest := messaging, provisionTimeout, interval, digest;
    }

    // ----- What a pass keeps at every call -----

    ghost predicate Holding()
      reads this
    {
      c in Copies(w, base)
    }

    // ----- Interference -----

    lemma StillHolding(before: World)
      requires c in Copies(before, base) && Follows(before.row, w.row) && Keeps(before, w)
      ensures Holding()
    {
      CopyKept(before, w, base, c);
    }

    /** Rows and clock move: time passes, the API accepts updates and deletions, other rows change. */
    method MoveRows()
      modifies this`w
      ensures w.inFlight == old(w.inFlight) && Follows(old(w.row), w.row)
      ensures Keeps(old(w), w) && Unaffected(old(w), w)
      ensures w.row != old(w).row ==> !old(w).row.deletionRequested && w.row.generation == old(w).row.generation + 1
      ensures w.row != old(w).row && !w.row.deletionRequested ==>
                old(w).row.phase in {Ready, Failed} && old(w).now < old(w).row.expiresAt
      ensures w.row != old(w).row && w.row.deletionRequested ==> old(w).row.phase != Destroyed
    {
      var choice: int, elapsed: int := *, *;
      if choice == 0 {
        if 0 <= elapsed {
          var later := w.now + elapsed;
          TickKept(w, later);
          w := w.(now := later);
        }
      } else if choice == 1 && Updatable(w.row, w.now) {
        var overrides: Selection, profiles: map<string, Component> := *, *;
        UpdateKept(w, overrides, profiles);
        w := Desires(w, Updated(w.row, overrides, profiles, w.now));
      } else if choice == 2 && Deletable(w.row) {
        DeleteKept(w);
        w := Desires(w, Deleted(w.row));
      } else {
        var others: seq<Composition> := *;
        var allowed := IsOtherRows(others);
        if allowed {
          OthersKept(w, others);
          w := w.(others := others);
        }
      }
    }

    method IsOtherRows(others: seq<Composition>) returns (r: bool)
      ensures r == OtherRows(others, w.setting.id)
    {
      r := (forall i, j | 0 <= i < j < |others| :: others[i].id != others[j].id) &&
        (forall c | c in others :: c.id != w.setting.id);
    }

    /** Another worker takes the route lock, offers its snapshot, or lets go, accepted or not. */
    method MoveRoutes()
      modifies this`w
      ensures w.row == old(w.row)
      ensures old(w.inFlight).Some? && w.inFlight.Some? ==> w.inFlight.value.offered && !old(w.inFlight).value.offered
      ensures old(w.inFlight).None? && w.inFlight.Some? ==> SnapshotOf(Active(w), w.now) == Some(w.inFlight.value.snapshot)
      ensures Keeps(old(w), w) && Unaffected(old(w), w)
    {
      var accepted: bool := *;
      if w.inFlight.None? {
        var rows := Active(w);
        var s := BuildSnapshot(rows, w.now);
        if s.Some? {
          ReadKept(w);
          w := Reads(w, s.value);
        }
      } else if !w.inFlight.value.offered {
        OfferKept(w);
        w := Offers(w, w.inFlight.value);
      } else if accepted {
        AcceptKept(w);
        w := Accepts(w, w.inFlight.value);
      } else {
        ReleaseKept(w);
        w := w.(inFlight := None);
      }
    }

    /** One thing that somebody else does; while this worker holds the route lock, nothing about routes. */
    method MoveOn(locked: bool)
      requires Holding()
      modifies this`w
      ensures Holding() && (locked ==> w.inFlight == old(w.inFlight))
      ensures Keeps(old(w), w) && Unaffected(old(w), w)
    {
      var rows: bool := *;
      if rows || locked {
        MoveRows();
      } else {
        MoveRoutes();
      }
      StillHolding(old(w));
    }

    /** Anything others may do meanwhile. While this worker holds the route lock, no other snapshot moves. */
    method Interfere(locked: bool)
      requires Holding()
      modifies this`w
      ensures Holding() && (locked ==> w.inFlight == old(w.inFlight))
      ensures Keeps(old(w), w) && Unaffected(old(w), w)
    {
      var steps: nat := *;
      while steps > 0
        invariant Holding() && (locked ==> w.inFlight == old(w.inFlight))
        invariant Keeps(old(w), w) && Unaffected(old(w), w)
      {
        ghost var before := w;
        MoveOn(locked);
        KeepsTransitive(old(w), before, w);
        steps := steps - 1;
      }
    }

    // ----- Store and routes -----

    /**
     Writes the copy if neither generation nor deletion moved since it was loaded. A failure may hide
     a committed write.
     */
    method SaveObservation() returns (o: Outcome)
      requires Holding()
      requires HonestReadiness(c) && (HasReadyEndpoint(c) ==> CheckedFor(w.h, c, w.setting))
      requires ReplacesOnlyIdle(base, c) && (c.phase == Destroyed ==> Dismantled(w.h, c, w.setting.id))
      modifies this`w, this`base
      ensures Holding() && (base == c || base == old(base))
      ensures o.Done? || o.Stale? || o.Crashed? || o.Error?
      ensures o.Done? ==> base == c
      ensures o.Stale? || o.Crashed? ==> w == old(w) && base == old(base)
      ensures old(w).row.generation != c.generation || old(w).row.deletionRequested != c.deletionRequested ==> o.Stale? || o.Crashed?
      ensures o.Stale? ==> old(w).row.generation != c.generation || old(w).row.deletionRequested != c.deletionRequested
      ensures Unaffected(old(w), w)
      ensures Closed(old(w)) ==> Closed(w)
      ensures old(w).now <= w.now && w.setting == old(w.setting)
    {
      var crash: bool, fails: bool := *, *;
      if crash {
        return Crashed;
      }
      if w.row.generation != c.generation || w.row.deletionRequested != c.deletionRequested {
        return Stale;
      }
      if fails {
        Interfere(false);
        return Error("persist observation: database unavailable");
      }
      SaveKept(w, c);
      w := Saves(w, c);
      base := c;
      Interfere(false);
      fails := *;
      o := if fails then Error("commit observation: database unavailable") else Done;
    }

    /** The other holder of the route lock takes its next step, whatever else happens meanwhile. */
    method AwaitHolder()
      requires Holding() && w.inFlight.Some?
      modifies this`w
      ensures Holding() && Keeps(old(w), w) && Unaffected(old(w), w)
      ensures w.inFlight.Some? ==> w.inFlight.value.offered && !old(w).inFlight.value.offered
    {
      Interfere(true);
      ghost var before := w;
      MoveRoutes();
      StillHolding(before);
      KeepsTransitive(old(w), before, w);
    }

    /** The holder of the route lock, if any, offers its snapshot and lets go. */
    method WaitForLock()
      requires Holding()
      modifies this`w
      ensures Holding() && w.inFlight.None?
      ensures Keeps(old(w), w) && Unaffected(old(w), w)
    {
      Interfere(false);
      while w.inFlight.Some?
        invariant Holding() && Keeps(old(w), w) && Unaffected(old(w), w)
        decreases if w.inFlight.None? then 0 else if w.inFlight.value.offered then 1 else 2
      {
        ghost var before := w;
        AwaitHolder();
        KeepsTransitive(old(w), before, w);
      }
    }

    /** Takes the route lock, reads the store and builds the aggregate snapshot. */
    method ReadRoutes() returns (built: bool)
      requires Holding()
      modifies this`w
      ensures Holding() && Keeps(old(w), w) && Unaffected(old(w), w)
      ensures built ==> w.inFlight.Some? && !w.inFlight.value.offered && w.inFlight.value.from.runtime == base.runtime
      ensures built && base.deletionRequested ==> w.inFlight.value.from == base
      ensures built ==> w.inFlight.value.from == w.row && SnapshotOf(Active(w), w.now) == Some(w.inFlight.value.snapshot)
    {
      WaitForLock();
      var s := BuildSnapshot(Active(w), w.now);
      built := s.Some?;
      if built {
        ghost var before := w;
        ReadKept(w);
        w := Reads(w, s.value);
        StillHolding(before);
        KeepsTransitive(old(w), before, w);
      }
    }

    /** Calls the routing provider with the snapshot read under the lock. */
    method OfferRoutes()
      requires Holding() && w.inFlight.Some? && !w.inFlight.value.offered
      modifies this`w
      ensures Holding() && Keeps(old(w), w) && Unaffected(old(w), w)
      ensures w.inFlight == Some(old(w.inFlight.value).(offered := true))
    {
      Interfere(true);
      ghost var before := w;
      OfferKept(w);
      w := Offers(w, w.inFlight.value);
      StillHolding(before);
      KeepsTransitive(old(w), before, w);
    }

    /** The provider reports the offered snapshot ready; the lock is released. */
    method AcceptRoutes()
      requires Holding() && w.inFlight.Some? && w.inFlight.value.offered
      requires w.inFlight.value.from.runtime == base.runtime
      requires base.deletionRequested ==> w.inFlight.value.from == base
      modifies this`w
      ensures Holding() && Keeps(old(w), w) && Unaffected(old(w), w)
      ensures w in Without(base.runtime.published)
      ensures base.deletionRequested ==> Closed(w)
      ensures base.deletionRequested && !Meshed(base) ==> Unmeshed(w)
    {
      Interfere(true);
      ghost var before := w;
      AcceptKept(w);
      w := Accepts(w, w.inFlight.value);
      StillHolding(before);
      KeepsTransitive(old(w), before, w);
    }

    method ReleaseRoutes()
      requires Holding()
      modifies this`w
      ensures Holding() && Keeps(old(w), w) && Unaffected(old(w), w)
    {
      Interfere(true);
      ghost var before := w;
      ReleaseKept(w);
      w := w.(inFlight := None);
      StillHolding(before);
      KeepsTransitive(old(w), before, w);
    }

    /**
     Rebuilds the aggregate snapshot from the store and has the provider accept it, all under the
     route lock. After success the provider runs without anything the stored row has given up.
     */
    method SyncRoutes() returns (o: Outcome)
      requires Holding()
      modifies this`w
      ensures Holding() && Keeps(old(w), w) && Unaffected(old(w), w)
      ensures o.Done? || o.Crashed? || o.RoutesPending? || o.Error?
      ensures o.Done? ==> w in Without(base.runtime.published)
      ensures o.Done? && base.deletionRequested ==> Closed(w)
      ensures o.Done? && base.deletionRequested && !Meshed(base) ==> Unmeshed(w)
    {
      o := AnyOutcome();
      if o.Done? {
        var built := ReadRoutes();
        o := Error("snapshot");
        if built {
          o := CallProvider();
          Interfere(false);
        }
      }
    }

    /** The provider accepts the offered snapshot, is not ready yet, or fails; the lock is released. */
    method EndCall() returns (o: Outcome)
      requires Holding() && w.inFlight.Some? && w.inFlight.value.offered
      requires w.inFlight.value.from.runtime == base.runtime
      requires base.deletionRequested ==> w.inFlight.value.from == base
      modifies this`w
      ensures Holding() && Keeps(old(w), w) && Unaffected(old(w), w)
      ensures o.Done? || o.RoutesPending? || o.Error?
      ensures o.Done? ==> w in Without(base.runtime.published)
      ensures o.Done? && base.deletionRequested ==> Closed(w)
      ensures o.Done? && base.deletionRequested && !Meshed(base) ==> Unmeshed(w)
    {
      var fails: bool, ready: bool := *, *;
      if fails || !ready {
        ReleaseRoutes();
        o := if fails then Error("configure routes") else RoutesPending;
      } else {
        AcceptRoutes();
        o := Done;
      }
    }

    /** Offers the snapshot read under the lock and waits for the answer. */
    method CallProvider() returns (o: Outcome)
      requires Holding() && w.inFlight.Some? && !w.inFlight.value.offered
      requires w.inFlight.value.from.runtime == base.runtime
      requires base.deletionRequested ==> w.inFlight.value.from == base
      modifies this`w
      ensures Holding() && Keeps(old(w), w) && Unaffected(old(w), w)
      ensures o.Done? || o.RoutesPending? || o.Error?
      ensures o.Done? ==> w in Without(base.runtime.published)
      ensures o.Done? && base.deletionRequested ==> Closed(w)
      ensures o.Done? && base.deletionRequested && !Meshed(base) ==> Unmeshed(w)
    {
      OfferRoutes();
      ghost var offered := w;
      o := EndCall();
      KeepsTransitive(old(w), offered, w);
    }

    // ----- Teardown -----

    /** Appends an event of this worker and lets the world move on. */
    method Record(e: Event)
      requires Holding() && Inert(e) && Permitted(w.h, e, w.setting)
      modifies this`w
      ensures Holding() && Keeps(old(w), w)
      ensures Unaffected(After(old(w), e), w)
    {
      ghost var before := w;
      InertKept(w, e);
      w := After(w, e);
      StillHolding(before);
      ghost var middle := w;
      Interfere(false);
      KeepsTransitive(before, middle, w);
    }

    /** Asks the verifier whether the endpoint has stopped answering. */
    method ConfirmAbsent() returns (o: Outcome)
      requires Holding()
      modifies this`w
      ensures Holding() && Keeps(old(w), w)
      ensures o.Done? || o.Crashed? || o.Error?
      ensures o.Done? && Closed(old(w)) ==>
                Quiet(w).Some? && Quiet(w).value <= w.now
      ensures o.Done? ==> exists at :: Calls(w.h) == Calls(old(w).h) + [AbsenceConfirmed(at)]
    {
      var crash: bool, answers: bool := *, *;
      if crash {
        return Crashed;
      }
      Interfere(false);
      if answers {
        return Error("endpoint still answers");
      }
      ghost var before, at := w, w.now;
      AbsenceKept(w);
      w := After(w, AbsenceConfirmed(w.now));
      StillHolding(before);
      KeepsTransitive(old(w), before, w);
      before := w;
      Interfere(false);
      KeepsTransitive(old(w), before, w);
      assert Calls(w.h) == Calls(old(w).h) + [AbsenceConfirmed(at)];
      o := Done;
    }

    /**
     The namespace is the cleanup unit of all overrides: recorded identities must agree before it is
     deleted once. Accepts exactly the agreeing inventories, with the one identity they share.
     */
    method AgreeNamespace(owned: map<string, WorkloadRef>, namespace: string, token: string)
      returns (ok: bool, uid: string)
      ensures ok <==> exists u :: Agreeing(owned, namespace, token, u)
      ensures ok ==> Agreeing(owned, namespace, token, uid)
      ensures ok && uid != "" ==> exists k :: k in owned && owned[k].namespace != "" && owned[k].namespaceUID == uid
    {
      uid := "";
      var rest := owned.Keys;
      while rest != {}
        invariant rest <= owned.Keys
        invariant forall k :: k in owned.Keys - rest && owned[k].namespace != "" ==>
          owned[k].namespace == namespace && owned[k].ownershipToken == token &&
          (owned[k].namespaceUID == "" || owned[k].namespaceUID == uid)
        invariant uid != "" ==> exists k :: k in owned && owned[k].namespace != "" && owned[k].namespaceUID == uid
        decreases rest
      {
        var k :| k in rest;
        rest := rest - {k};
        var observed := owned[k];
        if observed.namespace == "" {
          continue;
        }
        if observed.namespace != namespace || observed.ownershipToken != token ||
           (uid != "" && observed.namespaceUID != "" && uid != observed.namespaceUID)
        {
          ok := false;
          assert !exists u :: Agreeing(owned, namespace, token, u);
          return;
        }
        if observed.namespaceUID != "" {
          uid := observed.namespaceUID;
        }
      }
      assert Agreeing(owned, namespace, token, uid);
      ok := true;
    }

    /** What a pass over a deleted composition leaves to be saved. */
    ghost predicate Winding()
      reads this
    {
      Holding() && c in Unwinding(base)
    }

    /** The drain starts now. */
    method StartDrain()
      requires Winding() && c.phase == Destroying && Closed(w) && Quiet(w).Some? && Quiet(w).value <= w.now
      requires !c.runtime.routesRemoved
      modifies this`c
      ensures Winding() && c.phase == Destroying
      ensures c == old(c).(lastError := None, runtime := old(c).runtime.(drainUntil := Some(w.now + w.setting.drain)))
    {
      var until := w.now + w.setting.drain;
      DrainLawful(w, base, c, until);
      c := Draining(c, until);
    }

    /** Starts the drain of a closed ingress once its absence is confirmed, or reports it over. */
    method Drain() returns (o: Outcome, drained: bool)
      requires Winding() && c.runtime == base.runtime && c.phase == Destroying && Closed(w) && !c.runtime.routesRemoved
      modifies this`w, this`c
      ensures Keeps(old(w), w)
      ensures o.Done? || o.Crashed? || o.Error?
      ensures Winding() && c.phase == Destroying
      ensures drained ==> o.Done? && c.runtime == base.runtime && c.runtime.drainUntil.Some? && c.runtime.drainUntil.value <= w.now
      ensures c.runtime == old(c).runtime.(drainUntil := c.runtime.drainUntil)
      ensures o.Done? && old(c).runtime.drainUntil.None? ==> !drained && c.runtime.drainUntil == Some(w.now + w.setting.drain)
      ensures o.Done? && old(c).runtime.drainUntil.Some? ==>
                c == old(c) && (drained <==> c.runtime.drainUntil.value <= w.now)
      ensures o.Done? ==> exists at :: Calls(w.h) == Calls(old(w).h) + [AbsenceConfirmed(at)]
    {
      o, drained := Error("composition has no valid allocated endpoint"), false;
      if EndpointHost(c).Some? {
        o := ConfirmAbsent();
        if o.Done? && c.runtime.drainUntil.None? {
          StartDrain();
        } else {
          drained := o.Done? && c.runtime.drainUntil.value <= w.now;
        }
      }
    }

    /** From now on the routes are to go. */
    method MarkRemoved()
      requires Winding() && c.runtime == base.runtime && c.phase == Destroying && Closed(w)
      requires c.runtime.drainUntil.Some? && c.runtime.drainUntil.value <= w.now
      modifies this`c
      ensures Winding() && c == old(c).(runtime := old(c).runtime.(routesRemoved := true))
    {
      RemovalLawful(w, base, c);
      c := Removed(c);
    }

    /** Records that the routes are to go, then has the provider accept a table without them. */
    method RemoveRoutes() returns (o: Outcome)
      requires Winding() && c.runtime == base.runtime && c.phase == Destroying && Closed(w)
      requires c.runtime.drainUntil.Some? && c.runtime.drainUntil.value <= w.now
      modifies this`w, this`c, this`base
      ensures old(w).now <= w.now && w.setting == old(w.setting)
      ensures !o.BaselinePending? && (o.Stale? || Winding())
      ensures c.phase == Destroying
      ensures o.Done? ==> c.runtime == base.runtime && !Meshed(c) && Closed(w) && Unmeshed(w)
      ensures c.runtime == old(c).runtime.(routesRemoved := true) && Calls(w.h) == Calls(old(w).h)
    {
      MarkRemoved();
      o := SaveObservation();
      if o.Done? {
        o := SyncRoutes();
      }
    }

    method ForgetSubscriptions()
      requires Holding()
      modifies this`c
      ensures Holding() && c == old(c).(subscriptions := Unready(old(c).subscriptions))
    {
      Reworded(w, base, c, c.(subscriptions := Unready(c.subscriptions)));
      c := c.(subscriptions := Unready(c.subscriptions));
    }

    /** Deletes the subscriptions of an isolated composition whose workloads are confirmed absent. */
    method DeleteSubscriptions() returns (o: Outcome, absent: bool)
      requires Winding() && !WorkloadsMayExist(w.h)
      modifies this`w, this`c
      ensures Holding() && Keeps(old(w), w)
      ensures o.Done? || o.Crashed? || o.Error?
      ensures c == if o.Done? && absent then old(c).(subscriptions := Unready(old(c).subscriptions)) else old(c)
      ensures !WorkloadsMayExist(w.h) && (o.Done? && absent ==> !SubscriptionsExist(w.h))
      ensures o.Done? ==> Calls(w.h) == Calls(old(w).h) + [SubscriptionsDeleted]
      ensures Calls(old(w).h) <= Calls(w.h)
    {
      o, absent := Error("Pub/Sub cleanup requires provider and resolved plan"), false;
      if messaging && c.plan.Some? {
        Record(SubscriptionsDeleted);
        o := AnyOutcome();
        absent := *;
        if o.Done? && absent {
          ForgetSubscriptions();
        }
      }
    }

    /** Asks for the deletion of the namespace under the identity on which the recorded workloads agree. */
    method AskNamespace() returns (o: Outcome, ghost asked: Event)
      requires Holding() && c.runtime == base.runtime && c.deletionRequested
      requires Closed(w) && Unmeshed(w)
      modifies this`w
      ensures Holding() && Keeps(old(w), w)
      ensures o.Done? || o.Crashed? || o.Error?
      ensures o.Done? ==> NamespaceAsked(asked, c) && Calls(w.h) == Calls(old(w).h) + [asked]
    {
      var ok, uid := AgreeNamespace(OwnedWorkloads(c), NamespaceForID(c.id), c.runtime.ownershipToken);
      asked := NamespaceDeleted(uid);
      o := Error("workload namespace ownership identities disagree");
      if ok {
        AgreeingMeans(c, uid);
        Record(NamespaceDeleted(uid));
        o := AnyOutcome();
      }
    }

    /** Deletes the namespace and asks whether it is gone. */
    method DeleteNamespace() returns (o: Outcome, absent: bool, ghost asked: Event)
      requires Holding() && c.runtime == base.runtime && c.deletionRequested
      requires Closed(w) && Unmeshed(w)
      modifies this`w
      ensures Holding() && Keeps(old(w), w)
      ensures o.Done? || o.Crashed? || o.Error?
      ensures absent ==> o.Done? && !WorkloadsMayExist(w.h)
      ensures o.Done? ==> NamespaceAsked(asked, c)
      ensures o.Done? ==> Calls(w.h) == Calls(old(w).h) + [asked] + if absent then [NamespaceAbsent] else []
    {
      absent := false;
      o, asked := AskNamespace();
      if o.Done? {
        ghost var before := w;
        o := AnyOutcome();
        var gone: bool := *;
        if o.Done? && gone {
          Record(NamespaceAbsent);
          absent := true;
          KeepsTransitive(old(w), before, w);
        }
      }
    }

    /** A call into a provider succeeds, fails, or is the last thing this process does. */
    method AnyOutcome() returns (o: Outcome)
      ensures o.Done? || o.Crashed? || o.Error?
    {
      var crash: bool, fails: bool := *, *;
      o := if crash then Crashed else if fails then Error("provider") else Done;
    }

    method RetrySoon()
      requires Winding() && c.phase == Destroying
      modifies this`c
      ensures Winding() && c.phase == Destroying && c.schedule.nextAttemptAt == w.now + interval
    {
      var next := w.now + interval;
      Reworded(w, base, c, c.(schedule := c.schedule.(nextAttemptAt := next)));
      c := c.(schedule := c.schedule.(nextAttemptAt := next));
    }

    method MarkDestroyed()
      requires Winding() && c.phase == Destroying && !Meshed(c)
      modifies this`c
      ensures Winding() && c.phase == Destroyed && c.lastError.None? && c.operation == old(c).operation.(status := OperationSucceeded)
      ensures c.runtime == old(c).runtime && c.subscriptions == old(c).subscriptions && c.messageIsolation == old(c).messageIsolation
    {
      Reworded(w, base, c, DestroyedRow(c));
      c := DestroyedRow(c);
    }

    /** With the workloads gone, the subscriptions they used go, and then the composition is destroyed. */
    method RemoveRest() returns (o: Outcome)
      requires Winding() && c.phase == Destroying && !Meshed(c) && Closed(w) && Unmeshed(w) && !WorkloadsMayExist(w.h)
      modifies this`w, this`c
      ensures Keeps(old(w), w) && Winding()
      ensures o.Done? || o.Crashed? || o.Error?
      ensures c.phase == Destroyed ==> o.Done? && Dismantled(w.h, c, w.setting.id)
      ensures o.Done? ==> c.phase == Destroyed || c.messageIsolation
      ensures o.Done? && old(c).messageIsolation ==> Calls(w.h) == Calls(old(w).h) + [SubscriptionsDeleted]
      ensures Calls(old(w).h) <= Calls(w.h)
    {
      o := Done;
      var absent := true;
      if c.messageIsolation {
        o, absent := DeleteSubscriptions();
      }
      if o.Done? && absent {
        MarkDestroyed();
      }
    }

    /** Deletes the namespace and, once it is absent, the subscriptions that its workloads used. */
    method RemoveOwned() returns (o: Outcome, ghost asked: Event)
      requires Winding() && c.runtime == base.runtime && c.phase == Destroying && !Meshed(c)
      requires Closed(w) && Unmeshed(w)
      modifies this`w, this`c
      ensures old(w).now <= w.now && w.setting == old(w.setting) && Winding()
      ensures o.Done? || o.Crashed? || o.Error?
      ensures c.phase == Destroyed ==> o.Done? && Dismantled(w.h, c, w.setting.id)
      ensures o.Done? ==> NamespaceAsked(asked, old(c)) && Calls(old(w).h) + [asked] <= Calls(w.h)
      ensures o.Done? && !c.messageIsolation ==> c.phase == Destroyed || c.schedule.nextAttemptAt == w.now + interval
    {
      var absent: bool;
      o, absent, asked := DeleteNamespace();
      if o.Done? {
        if absent {
          o := RemoveRest();
        } else {
          RetrySoon();
        }
      }
    }

    /** Takes a routed composition out of the mesh, one stage a pass: absence check, drain, withdrawal. */
    method Withdraw() returns (o: Outcome, withdrawn: bool)
      requires Winding() && c.runtime == base.runtime && c.phase == Destroying && Closed(w) && (!Meshed(base) ==> Unmeshed(w))
      modifies this`w, this`c, this`base
      ensures old(w).now <= w.now && w.setting == old(w.setting)
      ensures !o.BaselinePending? && (o.Stale? || Winding())
      ensures c.phase == Destroying
      ensures withdrawn && o.Done? ==> c.runtime == base.runtime && !Meshed(c) && Closed(w) && Unmeshed(w)
      ensures o.Done? && !withdrawn ==> Drains(old(c), c, w.now)
      ensures o.Done? ==> Calls(old(w).h) <= Calls(w.h)
    {
      o, withdrawn := Done, true;
      if c.runtime.routingActive && !c.runtime.routesRemoved {
        o, withdrawn := Drain();
        if withdrawn {
          o := RemoveRoutes();
        }
      }
    }

    method BeginDestroy()
      requires Holding() && c.deletionRequested && c.runtime == base.runtime && c.phase != Destroyed
      modifies this`c
      ensures Winding() && c.phase == Destroying && c.runtime == base.runtime
      ensures c == old(c).(phase := Destroying, operation := old(c).operation.(status := OperationRunning), endpoints := c.endpoints)
      ensures c.endpoints.Keys == old(c).endpoints.Keys
      ensures forall k :: k in c.endpoints ==> c.endpoints[k] == Endpoint(old(c).endpoints[k].host, false)
    {
      DestroyBegun(w, base, c);
      c := BegunDestroy(c);
    }

    /** One pass over a deleted composition: close ingress, drain, leave the mesh, remove what it owns. */
    method Destroy() returns (o: Outcome)
      requires Holding() && c.deletionRequested && c.runtime == base.runtime && c.phase != Destroyed
      modifies this`w, this`c, this`base
      ensures w.setting == old(w.setting)
      ensures !o.BaselinePending? && (o.Stale? || Winding())
      ensures c.phase == Destroyed ==> o.Done? && Dismantled(w.h, c, w.setting.id)
      ensures o.Done? ==> Drains(old(c), c, w.now) || NamespaceRequested(Calls(old(w).h), Calls(w.h))
    {
      BeginDestroy();
      o := SyncRoutes();
      if o.Done? {
        var withdrawn: bool;
        o, withdrawn := Withdraw();
        if o.Done? && withdrawn {
          ghost var asked: Event;
          ghost var before := Calls(w.h);
          o, asked := RemoveOwned();
          if o.Done? {
            Requested(Calls(old(w).h), before, Calls(w.h), asked);
          }
        }
      }
    }

    // ----- Convergence: preparation -----

    ghost predicate Working()
      reads this
    {
      Holding() && c in Converging(base)
    }

    method BeginPass()
      requires Holding() && !c.deletionRequested && c.runtime == base.runtime && c.phase != Destroyed
      modifies this`c
      ensures Working() && c.runtime == base.runtime
      ensures c == old(c).(phase := c.phase, operation := c.operation, endpoints := c.endpoints)
      ensures c.phase == (if c.operation.kind == "update" then Updating else Provisioning)
      ensures c.operation.kind == old(c).operation.kind
      ensures c.operation.status == (if old(c).operation.status == OperationSucceeded then OperationSucceeded else OperationRunning)
      ensures c.endpoints.Keys == old(c).endpoints.Keys
      ensures forall k :: k in c.endpoints ==> !c.endpoints[k].ready && c.endpoints[k].host == old(c).endpoints[k].host
    {
      Reworded(w, base, c, StartedRow(c));
      c := StartedRow(c);
    }

    /** Reads the identity of the shared baseline, where there is an observer and something to verify. */
    method ObserveBaseline() returns (o: Outcome)
      requires Working() && c.plan.Some?
      modifies this`w, this`c
      ensures Working() && c == old(c).(baselineObservation := c.baselineObservation) && Keeps(old(w), w)
      ensures o.Done? || o.Crashed? || o.BaselinePending?
      ensures SubscriptionsExist(w.h) == SubscriptionsExist(old(w).h) && Calls(old(w).h) <= Calls(w.h)
      ensures o.Done? && !Observing(w.setting, c) ==> c == old(c) && Unaffected(old(w), w)
      ensures o.Done? && Observing(w.setting, c) ==>
                c.baselineObservation.Some? &&
                LatestCheck(w.h) == LatestCheck(Then(old(w).h, BaselineObserved(c.baselineObservation.value.fingerprint)))
    {
      o := Done;
      if c.plan.value.baseline.verificationKind != "none" && w.setting.observer {
        var fingerprint: string := *;
        o := AnyOutcome();
        if o.Error? {
          o := BaselinePending;
          Rebased(BaselineObservation("", false));
        } else if o.Done? {
          Record(BaselineObserved(fingerprint));
          Rebased(BaselineObservation(fingerprint, true));
        }
      }
    }

    method Rebased(observation: BaselineObservation)
      requires Working()
      modifies this`c
      ensures Working() && c == old(c).(baselineObservation := Some(observation))
    {
      Reworded(w, base, c, c.(baselineObservation := Some(observation)));
      c := c.(baselineObservation := Some(observation));
    }

    /** Every planned subscription exists and is stored as ready before any workload can publish. */
    method EnsureMessaging() returns (o: Outcome)
      requires Working() && c.plan.Some? && c.runtime == base.runtime
      modifies this`w, this`c, this`base
      ensures o.Stale? || Working()
      ensures !o.RoutesPending? && !o.BaselinePending?
      ensures c == old(c).(subscriptions := c.subscriptions)
      ensures LatestCheck(w.h) == LatestCheck(old(w).h) && w.setting == old(w.setting)
      ensures o.Done? ==> base == c && SubscriptionsExist(w.h) && Recorded(c)
    {
      o := Error("Pub/Sub provider unavailable");
      if messaging {
        o := AnyOutcome();
        if o.Error? {
          Resubscribed(Unready(c.subscriptions));
        } else if o.Done? {
          ghost var existing: set<string>;
          o, existing := EnsureSubscriptions();
          if o.Done? {
            o := SaveObservation();
          }
        }
      }
    }

    method Resubscribed(subscriptions: seq<MessageSubscription>)
      requires Working()
      modifies this`c
      ensures Working() && c == old(c).(subscriptions := subscriptions)
    {
      Reworded(w, base, c, c.(subscriptions := subscriptions));
      c := c.(subscriptions := subscriptions);
    }

    /** The provider answers for each planned subscription whether it is ready, or with anything and an error. */
    method EnsureSubscriptions() returns (o: Outcome, ghost existing: set<string>)
      requires Working() && c.plan.Some?
      modifies this`w, this`c
      ensures o.Done? ==> Calls(w.h) == Calls(old(w).h) + [SubscriptionsReady]
      ensures o.Done? ==> Planned(c) <= existing
      ensures Working() && c == old(c).(subscriptions := c.subscriptions)
      ensures o.Done? || o.Crashed? || o.Error?
      ensures LatestCheck(w.h) == LatestCheck(old(w).h) && w.setting == old(w.setting)
      ensures o.Done? ==> SubscriptionsExist(w.h) && Recorded(c)
    {
      var ready: set<string>, partial: seq<MessageSubscription> := *, *;
      existing := ready;
      o := AnyOutcome();
      if o.Done? {
        var returned := Answered(c.plan.value.subscriptions, ready);
        Resubscribed(returned);
        if forall i | 0 <= i < |returned| :: returned[i].ready {
          AnsweredReady(c.plan.value.subscriptions, ready);
          Record(SubscriptionsReady);
        } else {
          o := Error("Pub/Sub subscription is not ready");
        }
      } else if o.Error? {
        Resubscribed(partial);
      }
    }

    // ----- Convergence: workloads -----

    /** The readiness loop has visited everything but `todo`. */
    ghost predicate Visiting(todo: set<string>)
      reads this
    {
      Working() && c in Visited(base, todo) && (c.messageIsolation ==> SubscriptionsExist(w.h))
    }

    /** Starts or replaces the execution of a job, durably before the provider may see it. */
    method PrepareExecution(k: string, profile: Component, ghost todo: set<string>) returns (o: Outcome)
      requires k in todo && Visiting(todo) && IsJob(profile)
      requires k in c.plan.value.profiles && c.plan.value.profiles[k] == profile && k in c.overrides
      modifies this`w, this`c, this`base
      ensures o.Done? || o.Stale? || o.Crashed? || o.Error?
      ensures o.Stale? || Working()
      ensures Fixed(c) == Fixed(old(c)) && c.components == old(c).components && w.setting == old(w.setting)
      ensures LatestCheck(w.h) == LatestCheck(old(w).h)
      ensures o.Done? ==> Visiting(todo) && k in c.runtime.executions
      ensures o.Done? ==> c.runtime.executions[k].specHash == digest(profile, c.overrides[k].image)
      ensures k in old(c).runtime.executions && old(c).runtime.executions[k].specHash == digest(profile, c.overrides[k].image) ==>
                o.Done? && c == old(c) && w == old(w)
      ensures k in old(c).runtime.executions && old(c).runtime.executions[k].specHash != digest(profile, c.overrides[k].image) &&
              (old(c).runtime.executions[k].state == Pending || old(c).runtime.executions[k].state == Running ||
               (profile.Kind() == ScheduledJob && old(c).runtime.executions[k].state == ExecutionReady)) ==>
                o.Error? && c == old(c) && w == old(w)
      ensures Calls(w.h) == Calls(old(w).h)
    {
      var hash := digest(profile, c.overrides[k].image);
      o := Done;
      if k !in c.runtime.executions {
        o := StartExecution(k, hash, todo);
      } else if c.runtime.executions[k].specHash != hash {
        if Busy(c.runtime.executions[k], profile.Kind() == ScheduledJob) {
          o := Error("cannot replace active Job");
        } else {
          o := StartExecution(k, hash, todo);
        }
      }
    }

    method StartExecution(k: string, hash: string, ghost todo: set<string>) returns (o: Outcome)
      requires k in todo && Visiting(todo)
      requires k in c.runtime.executions ==> !Busy(c.runtime.executions[k], Scheduled(c, k))
      modifies this`w, this`c, this`base
      ensures o.Done? || o.Stale? || o.Crashed? || o.Error?
      ensures o.Stale? || Working()
      ensures Fixed(c) == Fixed(old(c)) && c.components == old(c).components && w.setting == old(w.setting)
      ensures LatestCheck(w.h) == LatestCheck(old(w).h)
      ensures o.Done? ==> Visiting(todo) && k in c.runtime.executions
      ensures o.Done? ==>
                base == c && c.runtime.executions[k] == ExecutionRef(if |hash| <= 20 then hash else hash[..20], hash, c.generation, Pending)
      ensures Calls(w.h) == Calls(old(w).h)
    {
      ExecutionStarted(w, base, c, k, NewExecution(hash, c.generation), todo);
      c := WithExecution(c, k, NewExecution(hash, c.generation));
      o := SaveObservation();
    }

    /** Asks the runtime to run one component and to report on it. */
    method AskRuntime(k: string, job: bool, ghost todo: set<string>)
      returns (o: Outcome, failure: bool, ref: WorkloadRef, seen: WorkloadObservation)
      requires Visiting(todo) && (job ==> k in c.runtime.executions) && (JobIn(c, k) ==> job) && k in c.plan.value.profiles
      requires job ==> k in base.runtime.executions && base.runtime.executions[k].id == c.runtime.executions[k].id
      modifies this`w
      ensures o.Done? || o.Crashed?
      ensures Visiting(todo) && w.setting == old(w.setting) && LatestCheck(w.h) == LatestCheck(old(w).h)
      ensures failure ==> !seen.ready
      ensures Calls(w.h) == Calls(old(w).h) + [WorkloadEnsured(k, if job then Some(c.runtime.executions[k].id) else None)]
    {
      Record(WorkloadEnsured(k, if job then Some(c.runtime.executions[k].id) else None));
      ref, seen := *, *;
      o := AnyOutcome();
      failure := o.Error?;
      if o.Error? {
        o, seen := Done, WorkloadObservation(false, false, None);
      }
    }

    /** Asks the runtime for the workload of one component and records what it reports. */
    method EnsureWorkload(k: string, job: bool, ghost todo: set<string>)
      returns (o: Outcome, failure: bool, seen: WorkloadObservation, ghost ref: WorkloadRef)
      requires k in todo && Visiting(todo) && (job ==> k in c.runtime.executions) && (JobIn(c, k) ==> job)
      requires k in c.plan.value.profiles
      modifies this`w, this`c
      ensures o.Done? || o.Crashed?
      ensures Visiting(todo - {k})
      ensures Fixed(c) == Fixed(old(c)) && w.setting == old(w.setting) && LatestCheck(w.h) == LatestCheck(old(w).h)
      ensures c.components == old(c).components[k := StatusOf(job, seen)]
      ensures Tells(old(c), c, k, job, ref, seen)
      ensures Calls(w.h) == Calls(old(w).h) + [WorkloadEnsured(k, if job then Some(old(c).runtime.executions[k].id) else None)]
    {
      var reported: WorkloadRef;
      o, failure, reported, seen := AskRuntime(k, job, todo);
      ref := reported;
      ReportKept(w, base, c, k, job, reported, seen, todo);
      ReportTells(c, k, job, reported, seen);
      c := Reported(c, k, job, reported, seen);
    }

    /** A job has a stored execution before it is asked for. */
    method Admit(k: string, profile: Component, ghost todo: set<string>) returns (o: Outcome)
      requires k in todo && Visiting(todo) && k in c.overrides
      requires k in c.plan.value.profiles && c.plan.value.profiles[k] == profile
      modifies this`w, this`c, this`base
      ensures o.Done? || o.Stale? || o.Crashed? || o.Error?
      ensures o.Stale? || Working()
      ensures Fixed(c) == Fixed(old(c)) && c.components == old(c).components && w.setting == old(w.setting)
      ensures LatestCheck(w.h) == LatestCheck(old(w).h)
      ensures o.Done? ==> Visiting(todo) && (IsJob(profile) ==> k in c.runtime.executions)
      ensures Calls(w.h) == Calls(old(w).h)
    {
      o := Done;
      if IsJob(profile) {
        o := PrepareExecution(k, profile, todo);
      }
    }

    /** Asks for one admitted component and adds what it reports to the tally. */
    method EnsureAdmitted(k: string, profile: Component, tally: Readiness, ghost answers: map<string, Answer>, ghost todo: set<string>)
      returns (o: Outcome, next: Readiness, ghost answer: Answer)
      requires k in todo && Visiting(todo) && k !in answers && tally in Tallies(c, answers)
      requires k in c.plan.value.profiles && c.plan.value.profiles[k] == profile && (IsJob(profile) ==> k in c.runtime.executions)
      modifies this`w, this`c
      ensures (o.Done? || o.Crashed?) && Visiting(todo - {k}) && next in Tallies(c, answers[k := answer])
      ensures Fixed(c) == Fixed(old(c)) && w.setting == old(w.setting) && LatestCheck(w.h) == LatestCheck(old(w).h)
      ensures exists x :: Calls(w.h) == Calls(old(w).h) + [WorkloadEnsured(k, x)]
    {
      var failure: bool, seen: WorkloadObservation;
      ghost var before := c;
      ghost var ref: WorkloadRef;
      o, failure, seen, ref := EnsureWorkload(k, IsJob(profile), todo);
      answer := Answer(seen, failure);
      next := Tally(tally, IsJob(profile), profile.HasEndpoint(), failure, seen);
      TallyMore(before, c, answers, k, tally, answer);
    }

    /** One component of the readiness loop; a missing profile fails the pass. */
    method EnsureComponent(k: string, tally: Readiness, ghost answers: map<string, Answer>, ghost todo: set<string>)
      returns (o: Outcome, next: Readiness, ghost answer: Answer)
      requires k in todo && Visiting(todo) && k in c.overrides && k !in answers && tally in Tallies(c, answers)
      modifies this`w, this`c, this`base
      ensures o.Done? || o.Stale? || o.Crashed? || o.Error?
      ensures o.Stale? || Working()
      ensures Fixed(c) == Fixed(old(c)) && w.setting == old(w.setting) && LatestCheck(w.h) == LatestCheck(old(w).h)
      ensures o.Done? ==> Visiting(todo - {k}) && next in Tallies(c, answers[k := answer])
      ensures o.Done? ==> exists x :: Calls(w.h) == Calls(old(w).h) + [WorkloadEnsured(k, x)]
    {
      o, next, answer := Error("missing resolved profile"), tally, Answer(WorkloadObservation(false, false, None), true);
      if k in c.plan.value.profiles && c.plan.value.profiles[k].id == k {
        var profile := c.plan.value.profiles[k];
        ghost var before := c;
        o := Admit(k, profile, todo);
        if o.Done? {
          TallyStays(before, c, answers, tally);
          o, next, answer := EnsureAdmitted(k, profile, tally, answers, todo);
        }
      }
    }

    /** One turn of the readiness loop, with the answers so far. */
    method EnsureNext(k: string, tally: Readiness, ghost answers: map<string, Answer>, ghost todo: set<string>, ghost start: seq<Event>)
      returns (o: Outcome, next: Readiness, ghost more: map<string, Answer>)
      requires Counting(todo, tally, answers, start) && k in todo && k in c.overrides && k !in answers
      modifies this`w, this`c, this`base
      ensures o.Done? || o.Stale? || o.Crashed? || o.Error?
      ensures o.Stale? || Working()
      ensures Fixed(c) == Fixed(old(c)) && w.setting == old(w.setting) && LatestCheck(w.h) == LatestCheck(old(w).h)
      ensures more.Keys == answers.Keys + {k}
      ensures o.Done? ==> Counting(todo - {k}, next, more, start)
    {
      ghost var answer: Answer;
      o, next, answer := EnsureComponent(k, tally, answers, todo);
      more := answers[k := answer];
      assert more.Keys == answers.Keys + {k};
      if o.Done? {
        AskedMore(start, Calls(old(w).h), Calls(w.h), answers.Keys, k);
      }
    }

    /** The readiness loop has these answers and has asked for nothing else since `start`. */
    ghost predicate Counting(todo: set<string>, tally: Readiness, answers: map<string, Answer>, start: seq<Event>)
      reads this
    {
      Visiting(todo) && tally in Tallies(c, answers) && AskedOnce(start, Calls(w.h), answers.Keys)
    }

    /** Asks for every override exactly once; the order does not matter, since each component is visited once. */
    method EnsureComponents() returns (o: Outcome, tally: Readiness, ghost answers: map<string, Answer>)
      requires Visiting(c.overrides.Keys)
      modifies this`w, this`c, this`base
      ensures o.Done? || o.Stale? || o.Crashed? || o.Error?
      ensures o.Stale? || Working()
      ensures Fixed(c) == Fixed(old(c)) && w.setting == old(w.setting) && LatestCheck(w.h) == LatestCheck(old(w).h)
      ensures o.Done? ==> Visiting({}) && answers.Keys == c.overrides.Keys && tally in Tallies(c, answers)
      ensures o.Done? ==> AskedOnce(Calls(old(w).h), Calls(w.h), c.overrides.Keys)
    {
      var todo := c.overrides.Keys;
      answers := map[];
      o := Done;
      tally := Readiness(true, true, false, false, c.plan.value.baseline.verificationKind != "none", false, false);
      SumsNone(c.plan.value);
      ghost var names, start := todo, Calls(w.h);
      while todo != {}
        invariant o.Done? && todo + answers.Keys == names && todo !! answers.Keys
        invariant Fixed(c) == Fixed(old(c)) && w.setting == old(w.setting) && LatestCheck(w.h) == LatestCheck(old(w).h)
        invariant Counting(todo, tally, answers, start)
        decreases todo
      {
        var k :| k in todo;
        Moved(todo, answers.Keys, k);
        o, tally, answers := EnsureNext(k, tally, answers, todo, start);
        if !o.Done? {
          return;
        }
        todo := todo - {k};
      }
    }

    // ----- Convergence: routes -----

    /** A reworded copy is as good as before. */
    method Reword(d: Composition)
      requires Working() && Intent(d) == Intent(c) && d.runtime == c.runtime && d.endpoints == c.endpoints
      requires d.phase != Destroyed
      modifies this`c
      ensures Working() && c == d
    {
      Reworded(w, base, c, d);
      c := d;
    }

    /** Nothing is missing but suspended schedules. */
    method Suspend()
      requires Working()
      modifies this`c
      ensures Working() && c.phase == Suspended && c.operation.status == OperationSucceeded && c.lastError.None?
      ensures c == old(c).(phase := Suspended, lastError := None, operation := c.operation,
                           schedule := old(c).schedule.(nextAttemptAt := w.now + interval))
    {
      var next := w.now + interval;
      var d := SettledRow(c, Suspended, next);
      Reword(d.(schedule := d.schedule.(attempts := c.schedule.attempts)));
    }

    /** Not every workload is ready: suspended schedules settle, published routes are retained, the rest waits or fails. */
    method Await(tally: Readiness) returns (o: Outcome)
      requires Working()
      modifies this`w, this`c
      ensures Working()
      ensures !o.Stale? && !o.BaselinePending?
      ensures w.setting == old(w.setting)
      ensures Fixed(c) == Fixed(old(c)) && c.runtime == old(c).runtime
      ensures tally.anySuspended && !tally.waitingForOther && !tally.failed && !tally.failures ==>
                o.Done? && c.phase == Suspended && c.operation.status == OperationSucceeded
      ensures o.Done? && !(tally.anySuspended && !tally.waitingForOther && !tally.failed && !tally.failures) ==>
                !tally.failures && !tally.failed && InTime(old(c), old(w).now, provisionTimeout) &&
                c == old(c).(lastError := None, schedule := old(c).schedule.(attempts := 0)) &&
                (c.runtime.routingActive ==> w in Without(base.runtime.published))
      ensures o.Error? && o.message == "components are not ready" && !tally.failures && !tally.failed && !c.runtime.routingActive ==>
                !InTime(old(c), old(w).now, provisionTimeout)
      ensures o.Done? ==> c.lastError.None?
    {
      o := Done;
      if OnlySuspended(tally) {
        Suspend();
      } else {
        if c.runtime.routingActive {
          o := SyncRoutes();
        }
        if o.Done? && (tally.failures || tally.failed || w.now - StartedAt(c) >= provisionTimeout) {
          o := Error("components are not ready");
        } else if o.Done? {
          Reword(c.(lastError := None, schedule := c.schedule.(attempts := 0)));
        }
      }
    }

    /** Everything is ready and the desired selection is the one being routed. */
    ghost predicate Routed()
      reads this
    {
      Working() && InRoutes(w, base, c)
    }

    /** Moves what left the selection into retirement, and stores the new selection before routing it. */
    method PublishSelection() returns (o: Outcome)
      requires Working() && Entering(w, base, MoveRetired(c))
      modifies this`w, this`c, this`base
      ensures !o.BaselinePending? && (o.Stale? || Working())
      ensures Fixed(c) == Fixed(old(c)) && c.components == old(c).components
      ensures LatestCheck(w.h) == LatestCheck(old(w).h) && w.setting == old(w.setting)
      ensures o.Done? ==> c.runtime.published == c.overrides && base.runtime.published == c.runtime.published
      ensures MovedOut(old(c), c) && Calls(w.h) == Calls(old(w).h)
    {
      MoveRetiredKept(w, base, c);
      RetiredMovedOut(c);
      c := MoveRetired(c);
      o := SaveObservation();
    }

    /** Stores the intention to route before the first shared route is written. */
    method ActivateRouting() returns (o: Outcome)
      requires Working() && SameRoutes(base.runtime, c.runtime)
      modifies this`w, this`c, this`base
      ensures !o.BaselinePending? && (o.Stale? || Working())
      ensures Fixed(c) == Fixed(old(c)) && c.components == old(c).components
      ensures LatestCheck(w.h) == LatestCheck(old(w).h) && w.setting == old(w.setting)
      ensures o.Done? ==> SameRoutes(base.runtime, c.runtime)
      ensures c == old(c).(runtime := old(c).runtime.(routingActive := true)) && Calls(w.h) == Calls(old(w).h)
      ensures o.Done? && !old(c).runtime.routingActive ==> base == c
    {
      o := Done;
      if !c.runtime.routingActive {
        ActivationKept(w, base, c);
        c := Activation(c);
        o := SaveObservation();
      }
    }

    method PublishRoutes() returns (o: Outcome)
      requires Working() && c.plan.Some? && !EndpointFree(c) && SameRoutes(base.runtime, c.runtime) && AllGood(c, c.overrides.Keys)
      modifies this`w, this`c, this`base
      ensures !o.BaselinePending? && (o.Stale? || Working())
      ensures Fixed(c) == Fixed(old(c))
      ensures LatestCheck(w.h) == LatestCheck(old(w).h) && w.setting == old(w.setting)
      ensures o.Done? ==> Routed() && c.runtime.routingActive
      ensures Calls(w.h) == Calls(old(w).h)
      ensures o.Done? ==>
                if old(c).runtime.published == old(c).overrides then c.runtime == old(c).runtime.(routingActive := true)
                else MovedOut(old(c).(runtime := old(c).runtime.(routingActive := true)), c)
    {
      o := ActivateRouting();
      if o.Done? {
        o := SyncRoutes();
        if o.Done? && c.runtime.published != c.overrides {
          o := PublishSelection();
          if o.Done? {
            o := SyncRoutes();
          }
        }
      }
    }

    // ----- Convergence: verification -----

    /** The fingerprint in the copy is the one last observed, wherever the baseline can be observed. */
    ghost predicate Tracking()
      reads this
    {
      Observing(w.setting, c) ==>
        c.baselineObservation.Some? && Seen(LatestCheck(w.h)) == Some(c.baselineObservation.value.fingerprint)
    }

    /** The latest check is of this generation, made on the baseline the copy knows. */
    ghost predicate Measured(passed: bool)
      reads this
    {
      && LatestCheck(w.h).Checked?
      && LatestCheck(w.h).generation == c.generation && LatestCheck(w.h).passed == passed
      && (Observing(w.setting, c) ==>
            c.baselineObservation.Some? && LatestCheck(w.h).before == Some(c.baselineObservation.value.fingerprint))
    }

    /** Probes the endpoint through ingress; the check is judged afterwards. */
    method Probe() returns (o: Outcome, passed: bool)
      requires Routed() && Tracking()
      modifies this`w
      ensures Routed() && w.setting == old(w.setting)
      ensures o.Done? || o.Crashed?
      ensures o.Done? ==> Measured(passed) && Calls(w.h) == Calls(old(w).h) + [Verified(c.generation, passed)]
    {
      o := AnyOutcome();
      passed := o.Done?;
      if !o.Crashed? {
        o := Done;
        Record(Verified(c.generation, passed));
      }
    }

    /** Observes the baseline again after a check, which only counts if nothing moved meanwhile. */
    method Reobserve(ghost passed: bool) returns (o: Outcome)
      requires Routed() && Measured(passed)
      modifies this`w, this`c
      ensures Working() && w.setting == old(w.setting)
      ensures o.Done? || o.Crashed? || o.BaselinePending?
      ensures o.Done? ==> Routed() && (passed ==> CheckedFor(w.h, c, w.setting))
      ensures c == old(c).(baselineObservation := c.baselineObservation) && Calls(old(w).h) <= Calls(w.h)
    {
      o := Done;
      if c.baselineObservation.Some? {
        var before := c.baselineObservation.value.fingerprint;
        o := ObserveBaseline();
        StillInRoutes(old(w), w, base, old(c), c);
        if o.Done? && c.baselineObservation.value.fingerprint != before {
          o := BaselinePending;
        }
      }
    }

    /** The evidence in the copy is of a passed check of this generation, on the baseline still seen. */
    ghost predicate Evidenced()
      reads this
    {
      CheckedFor(w.h, c, w.setting) && c.pendingVerification == Some(EvidenceFor(c, true))
    }

    /** Stores the evidence of a passed check and the services it went through. */
    method Confirm()
      requires Routed() && CheckedFor(w.h, c, w.setting)
      modifies this`c
      ensures Routed() && Evidenced()
      ensures c == old(c).(pendingVerification := c.pendingVerification, components := c.components)
    {
      var hops: set<string> := *;
      Reword(c.(pendingVerification := Some(EvidenceFor(c, true)), components := c.components + StatusOfHops(hops)));
    }

    /** Stores the evidence of a failed check, an error only after the first provisioning or its time limit. */
    method Doubt() returns (o: Outcome)
      requires Working()
      modifies this`c
      ensures Working() && (o.Done? || o.Error?)
      ensures c == old(c).(pendingVerification := c.pendingVerification, lastError := c.lastError)
      ensures c.pendingVerification.Some? && !c.pendingVerification.value.passed && c.pendingVerification.value.generation == c.generation
      ensures o.Done? <==> c.operation.status != OperationSucceeded && InTime(c, w.now, provisionTimeout)
      ensures c.lastError == if o.Done? then None else old(c).lastError
    {
      var tolerated := c.operation.status != OperationSucceeded && w.now - StartedAt(c) < provisionTimeout;
      o := if tolerated then Done else Error("verify request routing");
      Reword(c.(pendingVerification := Some(EvidenceFor(c, false)), lastError := if tolerated then None else c.lastError));
    }

    /** Probes the published routes on an unmoved baseline and judges the result. */
    method VerifyRouting() returns (o: Outcome, verified: bool)
      requires Routed() && Tracking()
      modifies this`w, this`c
      ensures Working() && w.setting == old(w.setting)
      ensures !o.Stale? && !o.RoutesPending?
      ensures verified ==> o.Done? && Routed() && Evidenced()
      ensures c == old(c).(pendingVerification := c.pendingVerification, components := c.components,
                           baselineObservation := c.baselineObservation, lastError := c.lastError)
      ensures o.Done? ==> "public" in c.endpoints && c.pendingVerification.Some? && (c.pendingVerification.value.passed <==> verified)
      ensures o.Done? && !verified ==> c.operation.status != OperationSucceeded && c.lastError.None?
      ensures o.Done? ==> CheckedSince(Calls(old(w).h), Calls(w.h), c.generation, verified)
    {
      o, verified := Error("composition has no valid allocated endpoint"), false;
      if EndpointHost(c).Some? {
        var passed: bool;
        ghost var before := Calls(w.h);
        o, passed := Probe();
        if o.Done? {
          o := Reobserve(passed);
          if o.Done? {
            CheckedThen(before, Calls(w.h), c.generation, passed);
            verified := passed;
            if passed {
              Confirm();
            } else {
              o := Doubt();
            }
          }
        }
      }
    }

    // ----- Convergence: retirement -----

    ghost predicate Due()
      reads this
    {
      DueNow(w, c)
    }

    /** Asks for the deletion of a retired workload and whether it is absent. */
    method RetireOne(k: string) returns (o: Outcome, absent: bool)
      requires Working() && Due() && k in c.runtime.retiring && base.runtime.published == c.runtime.published
      modifies this`w
      ensures Working() && Due() && Keeps(old(w), w) && LatestCheck(w.h) == LatestCheck(old(w).h)
      ensures o.Done? || o.Crashed? || o.Error?
      ensures exists at :: Calls(w.h) == Calls(old(w).h) + [WorkloadDeleted(k, at)]
    {
      DeletionPermitted(w, base, c, k);
      ghost var at := w.now;
      Record(WorkloadDeleted(k, w.now));
      assert Calls(w.h) == Calls(old(w).h) + [WorkloadDeleted(k, at)];
      o := AnyOutcome();
      if o.Done? {
        o := AnyOutcome();
      }
      absent := *;
    }

    method Release(k: string, clear: bool)
      requires Working() && Due() && (clear || EndpointFree(c))
      modifies this`c
      ensures Working() && c == Released(old(c), k, clear) && (c.runtime.retiring != map[] ==> Due())
    {
      ReleasedKept(w, base, c, k, clear);
      c := Released(c, k, clear);
    }

    /** A retired workload is deleted, and leaves the inventory once it is absent. */
    method RetireNext(k: string, clear: bool) returns (o: Outcome, absent: bool)
      requires Working() && Due() && k in c.runtime.retiring && (clear || EndpointFree(c))
      requires base.runtime.published == c.runtime.published
      modifies this`w, this`c
      ensures Working() && (c.runtime.retiring != map[] ==> Due())
      ensures w.setting == old(w.setting) && LatestCheck(w.h) == LatestCheck(old(w).h)
      ensures o.Done? || o.Crashed? || o.Error?
      ensures exists at :: Calls(w.h) == Calls(old(w).h) + [WorkloadDeleted(k, at)]
      ensures c == if o.Done? && absent then Released(old(c), k, clear) else old(c)
    {
      o, absent := RetireOne(k);
      if o.Done? && absent {
        Release(k, clear);
      }
    }

    /** What is gone of the retirement that was under way at `first`, and what has only been asked for. */
    ghost predicate Shedding(first: Composition, start: seq<Event>, gone: set<string>, waiting: set<string>, clear: bool)
      reads this
    {
      Shed(first, c, gone, clear) && DeletedOnce(start, Calls(w.h), gone + waiting) && waiting <= c.runtime.retiring.Keys
    }

    /** One turn of the retirement loop: one more is gone, or is what the loop waits for. */
    method RetireTurn(k: string, clear: bool, ghost first: Composition, ghost start: seq<Event>, ghost gone: set<string>)
      returns (o: Outcome, absent: bool, ghost more: set<string>, ghost waiting: set<string>)
      requires Working() && Due() && k in c.runtime.retiring && (clear || EndpointFree(c))
      requires base.runtime.published == c.runtime.published && Shedding(first, start, gone, {}, clear)
      modifies this`w, this`c
      ensures Working() && (c.runtime.retiring != map[] ==> Due()) && Besides(c) == Besides(old(c))
      ensures w.setting == old(w.setting) && LatestCheck(w.h) == LatestCheck(old(w).h)
      ensures o.Done? || o.Crashed? || o.Error?
      ensures Shedding(first, start, more, waiting, clear)
      ensures if absent then o.Done? && waiting == {} && c.runtime.retiring.Keys < old(c).runtime.retiring.Keys
              else waiting != {} && c.runtime.retiring == old(c).runtime.retiring
    {
      ShedMore(first, c, gone, k, clear);
      ghost var before := Calls(w.h);
      o, absent := RetireNext(k, clear);
      ghost var at :| Calls(w.h) == before + [WorkloadDeleted(k, at)];
      assert gone + {} == gone && gone + {k} + {} == gone + {k};
      DeletedMore(start, before, gone, k, at);
      absent := absent && o.Done?;
      more, waiting := if absent then gone + {k} else gone, if absent then {} else {k};
    }

    /**
     Asks for the deletion of retired workloads one by one, up to the first that is not absent yet, which
     is then in `waiting`; `clear` drops the deadline with the last of them.
     */
    method DeleteRetired(clear: bool) returns (o: Outcome, ghost gone: set<string>, ghost waiting: set<string>)
      requires Working() && (c.runtime.retiring != map[] ==> Due()) && (clear || EndpointFree(c))
      requires base.runtime.published == c.runtime.published
      modifies this`w, this`c
      ensures Working() && w.setting == old(w.setting) && LatestCheck(w.h) == LatestCheck(old(w).h)
      ensures o.Done? || o.Crashed? || o.Error?
      ensures Shedding(old(c), Calls(old(w).h), gone, waiting, clear)
      ensures o.Done? ==> waiting != {} || c.runtime.retiring == map[]
    {
      o, gone, waiting := Done, {}, {};
      var absent := true;
      ghost var first, start := c, Calls(w.h);
      while c.runtime.retiring != map[] && absent
        invariant Working() && (c.runtime.retiring != map[] ==> Due()) && Besides(c) == Besides(first)
        invariant base.runtime.published == c.runtime.published
        invariant w.setting == old(w.setting) && LatestCheck(w.h) == LatestCheck(old(w).h)
        invariant (o.Done? || o.Crashed? || o.Error?) && Shedding(first, start, gone, waiting, clear)
        invariant if absent then o.Done? && waiting == {} else waiting != {}
        decreases c.runtime.retiring.Keys, absent
      {
        var k :| k in c.runtime.retiring;
        o, absent, gone, waiting := RetireTurn(k, clear, first, start, gone);
      }
    }

    method StartRetirement()
      requires Routed() && Evidenced() && c.runtime.retiring != map[]
      modifies this`c
      ensures Working() && Evidenced() && c == WithDeadline(old(c), w.now + w.setting.drain)
    {
      var until := w.now + w.setting.drain;
      DeadlineKept(w, base, c, until);
      StillChecked(w.h, c, WithDeadline(c, until), w.setting);
      c := WithDeadline(c, until);
    }

    /** The drain is over. */
    method EndRetirement() returns (o: Outcome, ghost gone: set<string>, ghost waiting: set<string>)
      requires Routed() && Evidenced() && c.runtime.retirementDrainUntil.Some? && c.runtime.retirementDrainUntil.value <= w.now
      modifies this`w, this`c
      ensures Working() && Besides(c) == Besides(old(c)) && Evidenced() && w.setting == old(w.setting)
      ensures o.Done? || o.Crashed? || o.Error?
      ensures Shedding(old(c), Calls(old(w).h), gone, waiting, true) && (o.Done? ==> waiting != {} || c.runtime.retiring == map[])
    {
      o, gone, waiting := DeleteRetired(true);
    }

    /**
     Retires what left the selection: a full drain behind routes that exclude it, then deletion. Before the
     deadline nothing is deleted; after it, everything is, or the pass waits for the last one asked for.
     */
    method Retire() returns (o: Outcome, ghost gone: set<string>, ghost waiting: set<string>)
      requires Routed() && Evidenced()
      modifies this`w, this`c
      ensures Working() && Besides(c) == Besides(old(c)) && Evidenced() && w.setting == old(w.setting)
      ensures o.Done? || o.Crashed? || o.Error?
      ensures DeletedOnce(Calls(old(w).h), Calls(w.h), gone + waiting)
      ensures Retires(old(c), c, gone, waiting, o.Done?, old(w).now, w.setting.drain)
    {
      o, gone, waiting := Done, {}, {};
      if c.runtime.retiring != map[] {
        if c.runtime.retirementDrainUntil.None? {
          StartRetirement();
        } else if c.runtime.retirementDrainUntil.value <= w.now {
          o, gone, waiting := EndRetirement();
        }
      }
    }

    /** Where nothing is routed, what left the selection goes at once. */
    method RetireEndpointFree() returns (o: Outcome, ghost gone: set<string>, ghost waiting: set<string>)
      requires Working() && EndpointFree(c) && SameRoutes(base.runtime, c.runtime)
      modifies this`w, this`c, this`base
      ensures (o.Stale? || Working()) && !o.BaselinePending?
      ensures w.setting == old(w.setting) && Fixed(c) == Fixed(old(c))
      ensures c.runtime.published == c.overrides
      ensures o.Done? ==>
                && DeletedOnce(Calls(old(w).h), Calls(w.h), gone + waiting) && waiting <= c.runtime.retiring.Keys
                && (waiting != {} || c.runtime.retiring == map[])
      ensures o.Done? ==> forall k :: k in c.runtime.retiring <==> k !in gone && (k in old(c).runtime.retiring || Leaves(old(c), k))
    {
      o, gone, waiting := Done, {}, {};
      if c.runtime.published != c.overrides {
        o := PublishSelection();
      }
      if o.Done? {
        o, gone, waiting := DeleteRetired(false);
      }
    }

    // ----- One pass -----

    ghost predicate Saveable()
      reads this
    {
      c in Savables(w, base)
    }

    /** Reports every endpoint ready: only here, after verification and with nothing left to retire. */
    method Finish()
      requires Working() && Evidenced() && c.runtime.retiring == map[] && AllGood(c, c.overrides.Keys)
      requires c.runtime.published == c.overrides
      modifies this`c
      ensures Saveable() && c.phase == Ready && c.lastError.None?
      ensures c.endpoints.Keys == old(c).endpoints.Keys
      ensures forall k :: k in c.endpoints ==> c.endpoints[k] == old(c).endpoints[k].(ready := true)
      ensures c.operation == old(c).operation.(status := OperationSucceeded)
      ensures c.runtime == old(c).runtime.(published := old(c).overrides)
      ensures c.schedule == old(c).schedule.(attempts := 0, nextAttemptAt := w.now + interval)
      ensures c == old(c).(phase := c.phase, lastError := c.lastError, endpoints := c.endpoints, operation := c.operation,
                           runtime := c.runtime, schedule := c.schedule)
    {
      var next := w.now + interval;
      Readied(w, base, c, next);
      c := ReadyRow(c, next);
    }

    /**
     Verifies the routes in force and retires what they exclude; `settled` when nothing is left to retire.
     The retirement is of the moment `at`, when the check was over.
     */
    method VerifyAndRetire() returns (o: Outcome, settled: bool, ghost gone: set<string>, ghost waiting: set<string>, ghost at: int)
      requires Routed() && Tracking()
      modifies this`w, this`c
      ensures Working() && w.setting == old(w.setting)
      ensures settled ==> Evidenced() && c.runtime.retiring == map[] && AllGood(c, c.overrides.Keys) && c.runtime.published == c.overrides
      ensures c.runtime.routingActive == old(c).runtime.routingActive && Intent(c) == Intent(old(c))
      ensures settled ==> o.Done? && "public" in c.endpoints
      ensures o.Done? && old(c).runtime.routingActive && !settled ==> ServesOn(c)
      ensures o.Done? ==>
                && c.pendingVerification.Some?
                && CheckedSince(Calls(old(w).h), Calls(w.h), c.generation, c.pendingVerification.value.passed)
                && (c.pendingVerification.value.passed ==>
                      Retires(c.(runtime := old(c).runtime), c, gone, waiting, true, at, w.setting.drain))
    {
      o, settled := VerifyRouting();
      gone, waiting, at := {}, {}, w.now;
      if settled {
        ghost var before, middle := c, Calls(w.h);
        o, gone, waiting := Retire();
        settled := o.Done? && c.runtime.retiring == map[];
        CheckedStill(Calls(old(w).h), middle, Calls(w.h), c.generation, true);
      }
    }

    /** Verifies and retires behind routes in force; readiness comes last. */
    method ServeRouted() returns (o: Outcome, ghost gone: set<string>, ghost waiting: set<string>, ghost at: int)
      requires Routed() && Tracking() && c.runtime.routingActive
      modifies this`w, this`c
      ensures w.setting == old(w.setting) && Saveable()
      ensures Intent(c) == Intent(old(c))
      ensures o.Done? ==>
                ServesOn(c) && CheckedSince(Calls(old(w).h), Calls(w.h), c.generation, c.pendingVerification.value.passed)
      ensures o.Done? && c.pendingVerification.value.passed ==>
                Retires(c.(runtime := old(c).runtime), c, gone, waiting, true, at, w.setting.drain)
    {
      var settled: bool;
      o, settled, gone, waiting, at := VerifyAndRetire();
      if settled {
        Finish();
      } else {
        UnreadySavable(w, base, c);
      }
    }

    /** Routes, verifies and retires. */
    method Serve() returns (o: Outcome)
      requires Working() && c.plan.Some? && !EndpointFree(c) && SameRoutes(base.runtime, c.runtime)
      requires AllGood(c, c.overrides.Keys) && Tracking()
      modifies this`w, this`c, this`base
      ensures w.setting == old(w.setting) && (o.Stale? || Saveable())
      ensures Intent(c) == Intent(old(c))
      ensures o.Done? ==>
                ServesOn(c) && CheckedSince(Calls(old(w).h), Calls(w.h), c.generation, c.pendingVerification.value.passed)
    {
      o := PublishRoutes();
      if o.Done? {
        ghost var gone: set<string>, waiting: set<string>, at: int;
        o, gone, waiting, at := ServeRouted();
      } else if !o.Stale? {
        UnreadySavable(w, base, c);
      }
    }

    /** Retires at once what left the selection; with nothing of it left the composition is done, or ready. */
    method SettleEndpointFree(completed: bool) returns (o: Outcome)
      requires Working() && EndpointFree(c) && SameRoutes(base.runtime, c.runtime)
      modifies this`w, this`c, this`base
      ensures o.Stale? || Working()
      ensures w.setting == old(w.setting)
      ensures Fixed(c) == Fixed(old(c)) && c.runtime.published == c.overrides
      ensures o.Done? ==> SettledWithout(c, completed)
      ensures o.Done? && c.runtime.retiring != map[] ==>
                exists k :: k in c.runtime.retiring && DeletedIn(Calls(w.h), k) == DeletedIn(Calls(old(w).h), k) + 1
    {
      ghost var gone: set<string>, waiting: set<string>;
      o, gone, waiting := RetireEndpointFree();
      if o.Done? && c.runtime.retiring == map[] {
        var next := w.now + interval;
        Reword(SettledRow(c, if completed then Completed else Ready, next));
      }
    }

    /** What follows from the answers: waiting, or routes, or a settlement without routes. */
    method Conclude(tally: Readiness) returns (o: Outcome)
      requires Visiting({}) && Tracking()
      requires if tally.allReady then AllGood(c, c.overrides.Keys) else tally.anySuspended || tally.waitingForOther
      requires c.plan.Some? && (tally.hasEndpoint <==> !EndpointFree(c))
      modifies this`w, this`c, this`base
      ensures w.setting == old(w.setting) && (o.Stale? || Saveable())
      ensures Intent(c) == Intent(old(c))
      ensures o.Done? ==> EndsAs(c, tally)
    {
      if tally.allReady && tally.hasEndpoint {
        o := Serve();
      } else {
        if tally.allReady {
          o := SettleEndpointFree(tally.allCompleted);
        } else {
          o := Await(tally);
        }
        if !o.Stale? {
          UnreadySavable(w, base, c);
        }
      }
    }

    /** Brings every workload up, then routes them or settles without routes. */
    method Deploy() returns (o: Outcome, ghost answers: map<string, Answer>)
      requires Visiting(c.overrides.Keys) && Tracking()
      modifies this`w, this`c, this`base
      ensures w.setting == old(w.setting) && (o.Stale? || Saveable())
      ensures o.Done? ==> EndsWell(c, answers)
    {
      var tally: Readiness;
      o, tally, answers := EnsureComponents();
      if o.Done? {
        ghost var seen := c;
        TallyMeans(c, answers, tally);
        o := Conclude(tally);
        if o.Done? {
          EndsAsSummed(seen, c, answers, tally);
        }
      } else if !o.Stale? {
        UnreadySavable(w, base, c);
      }
    }

    /** An isolated composition has its subscriptions before anything of it runs. */
    method Isolate() returns (o: Outcome)
      requires Working() && c.plan.Some? && c.runtime == base.runtime && Tracking()
      modifies this`w, this`c, this`base
      ensures o.Stale? || Working()
      ensures o.Done? ==> Visiting(c.overrides.Keys) && Tracking() && (c.messageIsolation ==> Recorded(base))
      ensures !c.messageIsolation ==> o.Done?
      ensures c == old(c).(subscriptions := c.subscriptions)
      ensures w.setting == old(w.setting)
    {
      o := Done;
      if c.messageIsolation {
        o := EnsureMessaging();
      }
    }

    /** The preconditions of a deployment: a plan, a known baseline, few enough overrides, messaging where it is isolated. */
    method Prepare() returns (o: Outcome)
      requires Working() && c.runtime == base.runtime
      modifies this`w, this`c, this`base
      ensures o.Stale? || Working()
      ensures o.Done? ==> Visiting(c.overrides.Keys) && Tracking()
      ensures w.setting == old(w.setting)
      ensures o.Done? ==> c.plan.Some? && |c.overrides| <= 3 && (c.messageIsolation ==> Recorded(base))
      ensures c.plan.None? ==> o.Error? && c == old(c)
      ensures o.Error? && c.plan.Some? ==> |c.overrides| > 3 || c.messageIsolation
      ensures c == old(c).(baselineObservation := c.baselineObservation, subscriptions := c.subscriptions)
    {
      o := Error("persisted composition has no resolved catalog plan");
      if c.plan.Some? {
        o := ObserveBaseline();
        if o.Done? {
          o := if |c.overrides| > MAX_OVERRIDES then Error("persisted overrides and profiles do not match") else Done;
          if o.Done? {
            o := Isolate();
          }
        }
      }
    }

    /** One pass over the composition, and how it ends where nothing fails and nothing is awaited from outside. */
    method Step() returns (o: Outcome, ghost answers: map<string, Answer>)
      requires Holding() && c.runtime == base.runtime && c.phase != Destroyed
      modifies this`w, this`c, this`base
      ensures w.setting == old(w.setting) && (o.Stale? || Saveable())
      ensures o.Done? && old(c).deletionRequested ==>
                Drains(old(c), c, w.now) || NamespaceRequested(Calls(old(w).h), Calls(w.h))
      ensures o.Done? && !old(c).deletionRequested ==> EndsWell(c, answers)
    {
      answers := map[];
      if c.deletionRequested {
        o := Destroy();
      } else {
        BeginPass();
        o := Prepare();
        if o.Done? {
          o, answers := Deploy();
        }
      }
    }

    // ----- Runs -----

    /** Takes the stored row into memory. */
    method Load()
      modifies this`c, this`base
      ensures Holding() && base == w.row && c == w.row.(pendingVerification := None)
    {
      c, base := Loaded(w.row), w.row;
    }

    method Fail(message: string)
      requires Saveable()
      modifies this`c
      ensures Saveable() && FailureTold(old(c), c, message) && c.schedule.observedGeneration == old(c).schedule.observedGeneration
      ensures c.operation.kind == old(c).operation.kind
      ensures c.operation.status == if old(c).operation.status == OperationSucceeded then OperationSucceeded else OperationFailed
    {
      var next: int := *;
      Reworded(w, base, c, FailedRow(c, message, next));
      c := FailedRow(c, message, next);
    }

    method Excuse()
      requires Saveable()
      modifies this`c
      ensures Saveable() && c == old(c).(lastError := None)
    {
      Reworded(w, base, c, c.(lastError := None));
      c := c.(lastError := None);
    }

    method Reschedule(next: int)
      requires Saveable()
      modifies this`c
      ensures Saveable() && c == old(c).(schedule := c.schedule) && c.schedule.nextAttemptAt == next
      ensures c.schedule == old(c).schedule.(nextAttemptAt := next, observedGeneration := c.generation)
    {
      var d := c.(schedule := c.schedule.(nextAttemptAt := next, observedGeneration := c.generation));
      Rescheduled(w, base, c, d);
      c := d;
    }

    /** Whether an outcome is a failure; waiting for routes or for a baseline is none for as long as it may last. */
    predicate Fails(o: Outcome)
      reads this
    {
      o.Error? || (o.RoutesPending? && !c.deletionRequested && w.now - StartedAt(c) >= provisionTimeout)
    }

    /** Turns the outcome of a pass into the row to save. */
    method Report(o: Outcome, event: bool)
      requires Saveable() && !o.Stale? && !o.Crashed?
      modifies this`c
      ensures Saveable()
      ensures c.schedule.observedGeneration == c.generation
      ensures if o.Error? || (o.RoutesPending? && !old(c).deletionRequested && !InTime(old(c), w.now, provisionTimeout)) then
                FailureTold(old(c), c, if o.Error? then o.message else "waiting for route controller acceptance")
              else OutcomeTold(old(c), c, o.Done?, if event && c.phase == Ready then Some(30_000_000_000) else None, w.now, interval)
    {
      if Fails(o) {
        Fail(if o.Error? then o.message else "waiting for route controller acceptance");
        Reschedule(c.schedule.nextAttemptAt);
      } else {
        if !o.Done? {
          Excuse();
        }
        Reschedule(
          if event && c.phase == Ready then w.now + RECHECK
          else if c.schedule.nextAttemptAt <= w.now then w.now + interval
          else c.schedule.nextAttemptAt);
      }
    }

    /** One scheduled or event-driven pass and the final write of what it observed. */
    method Reconcile(event: bool)
      requires Holding() && c.runtime == base.runtime && c.phase != Destroyed
      modifies this`w, this`c, this`base
      ensures w.setting == old(w.setting)
      ensures old(w).now < old(c).schedule.nextAttemptAt && (!event || old(c).schedule.attempts > 0) ==> w == old(w) && c == old(c)
    {
      if c.schedule.nextAttemptAt <= w.now || (event && c.schedule.attempts == 0) {
        var o: Outcome;
        ghost var answers: map<string, Answer>;
        o, answers := Step();
        if !o.Stale? && !o.Crashed? {
          Report(o, event);
          o := SaveObservation();
        }
      }
    }

    /** Every run of the system: API writes, other workers, time, and passes that end anywhere. */
    method Run(steps: nat)
      requires Holding()
      modifies this`w, this`c, this`base
      ensures w.setting == old(w.setting) && Safe(w.h, w.setting) && Row(w.h) == w.row
    {
      for i := 0 to steps
        invariant Holding() && w.setting == old(w.setting)
      {
        Load();
        Interfere(false);
        var event: bool := *;
        if c.phase != Destroyed {
          Reconcile(event);
        }
        Load();
      }
    }
  }
}
