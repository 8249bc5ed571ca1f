/**
 What the reconciler does to the outside world on behalf of one composition, as a history of
 events, and the rules a history must obey. `Safe` holds of a history when every event was
 permitted by the events before it, so it speaks about every moment of a run at once.
 */
module History {
  import opened Domain
  import opened RouteTable

  datatype Event =
    | Offered(at: int, from: Composition, snapshot: Snapshot)  // routing provider called; `from` is the row it was built from
    | Accepted(at: int, snapshot: Snapshot)                    // the provider reports that snapshot ready
    | AbsenceConfirmed(at: int)                                // the endpoint no longer answers
    | Saved(row: Composition, at: int)                         // observation committed
    | Desired(row: Composition)                                // update or deletion committed by the API or by expiry
    | SubscriptionsReady                                       // every planned subscription exists
    | SubscriptionsDeleted                                     // deletion of the subscriptions attempted
    | WorkloadEnsured(component: string, execution: Option<string>)
    | WorkloadDeleted(component: string, at: int)
    | NamespaceDeleted(uid: string)
    | NamespaceAbsent
    | BaselineObserved(fingerprint: string)
    | Verified(generation: int, passed: bool)

  datatype History = Begin(first: Composition) | Then(past: History, event: Event)

  /** Constants of a run: the composition, the drain period, and whether baselines can be observed. */
  datatype Setting = Setting(id: string, drain: nat, observer: bool)

  // ----- What a history says -----

  /** The durable row. */
  ghost function Row(h: History): Composition {
    match h
    case Begin(row) => row
    case Then(past, Saved(row, _)) => row
    case Then(past, Desired(row)) => row
    case Then(past, _) => Row(past)
  }

  /** Since when the provider has run without a mesh entry of this component: an accepted snapshot, none offered since. */
  ghost function MeshClearSince(h: History, id: string, component: string): Option<int> {
    match h
    case Begin(_) => None
    case Then(past, Offered(_, _, s)) =>
      if component in MeshOf(s, id) then None else MeshClearSince(past, id, component)
    case Then(past, Accepted(at, s)) =>
      if component in MeshOf(s, id) then None
      else if MeshClearSince(past, id, component).Some? then MeshClearSince(past, id, component) else Some(at)
    case Then(past, _) => MeshClearSince(past, id, component)
  }

  /** Since when the provider has run without any mesh entry of the composition. */
  ghost function MeshEmptySince(h: History, id: string): Option<int> {
    match h
    case Begin(_) => None
    case Then(past, Offered(_, _, s)) => if MeshOf(s, id) != {} then None else MeshEmptySince(past, id)
    case Then(past, Accepted(at, s)) =>
      if MeshOf(s, id) != {} then None
      else if MeshEmptySince(past, id).Some? then MeshEmptySince(past, id) else Some(at)
    case Then(past, _) => MeshEmptySince(past, id)
  }

  /** Since when the provider has run without an ingress entry of the composition. */
  ghost function IngressClearSince(h: History, id: string): Option<int> {
    match h
    case Begin(_) => None
    case Then(past, Offered(_, _, s)) => if IngressOf(s, id) then None else IngressClearSince(past, id)
    case Then(past, Accepted(at, s)) =>
      if IngressOf(s, id) then None
      else if IngressClearSince(past, id).Some? then IngressClearSince(past, id) else Some(at)
    case Then(past, _) => IngressClearSince(past, id)
  }

  /** The first successful absence check since the ingress has been clear. */
  ghost function QuietSince(h: History, id: string): Option<int> {
    match h
    case Begin(_) => None
    case Then(past, AbsenceConfirmed(at)) =>
      if IngressClearSince(past, id).None? then None
      else if QuietSince(past, id).Some? then QuietSince(past, id) else Some(at)
    case Then(past, Offered(_, _, s)) => if IngressOf(s, id) then None else QuietSince(past, id)
    case Then(past, Accepted(_, s)) => if IngressOf(s, id) then None else QuietSince(past, id)
    case Then(past, _) => QuietSince(past, id)
  }

  /** The row was the durable one at some moment. */
  ghost predicate WasStored(h: History, row: Composition) {
    Row(h) == row || (h.Then? && WasStored(h.past, row))
  }

  ghost function LastOffered(h: History): Option<Snapshot> {
    match h
    case Begin(_) => None
    case Then(_, Offered(_, _, s)) => Some(s)
    case Then(past, _) => LastOffered(past)
  }

  /** The components that the snapshot last offered to the provider routes to their own workloads. */
  ghost function MeshOffered(h: History, id: string): set<string> {
    if LastOffered(h).Some? then MeshOf(LastOffered(h).value, id) else {}
  }

  /** The provider runs with a snapshot that routes the component: one was accepted, and none without it since. */
  ghost predicate Routed(h: History, id: string, component: string) {
    match h
    case Begin(_) => false
    case Then(_, Accepted(_, s)) => component in MeshOf(s, id)
    case Then(past, _) => Routed(past, id, component)
  }

  /** What this composition's own worker did outside the store and the route table, in order. */
  ghost function Calls(h: History): seq<Event> {
    match h
    case Begin(_) => []
    case Then(past, e) => if e.Offered? || e.Accepted? || e.Saved? || e.Desired? then Calls(past) else Calls(past) + [e]
  }

  /** How often a component was asked for. */
  ghost function AskedIn(calls: seq<Event>, component: string): nat {
    if calls == [] then 0 else
      var e := calls[|calls| - 1];
      AskedIn(calls[..|calls| - 1], component) + if e.WorkloadEnsured? && e.component == component then 1 else 0
  }

  /** How often the deletion of a retired component was asked for. */
  ghost function DeletedIn(calls: seq<Event>, component: string): nat {
    if calls == [] then 0 else
      var e := calls[|calls| - 1];
      DeletedIn(calls[..|calls| - 1], component) + if e.WorkloadDeleted? && e.component == component then 1 else 0
  }

  lemma OneMoreCall(calls: seq<Event>, e: Event)
    ensures forall k :: AskedIn(calls + [e], k) == AskedIn(calls, k) + if e.WorkloadEnsured? && e.component == k then 1 else 0
    ensures forall k :: DeletedIn(calls + [e], k) == DeletedIn(calls, k) + if e.WorkloadDeleted? && e.component == k then 1 else 0
  {
    assert (calls + [e])[..|calls|] == calls;
  }

  ghost predicate SubscriptionsExist(h: History) {
    match h
    case Begin(_) => false
    case Then(_, SubscriptionsReady) => true
    case Then(_, SubscriptionsDeleted) => false
    case Then(past, _) => SubscriptionsExist(past)
  }

  ghost predicate WorkloadsMayExist(h: History) {
    match h
    case Begin(_) => false
    case Then(_, WorkloadEnsured(_, _)) => true
    case Then(_, NamespaceAbsent) => false
    case Then(past, _) => WorkloadsMayExist(past)
  }

  /** A selection that takes a retiring component back, or drops a published one under a deadline already running. */
  predicate Undercuts(c: Composition, overrides: Selection) {
    (exists k :: k in c.runtime.retiring && k in overrides) ||
    (c.runtime.retirementDrainUntil.Some? && exists k :: k in c.runtime.published && k !in overrides)
  }

  /** Nothing that retires is published or desired. */
  predicate Apart(c: Composition) {
    forall k :: k in c.runtime.retiring ==> k !in c.runtime.published && k !in c.overrides
  }

  /** An update that undercuts a retirement under way was accepted, and the stored row has not been settled since. */
  ghost predicate Undercut(h: History) {
    match h
    case Begin(_) => false
    case Then(past, Desired(row)) =>
      Undercut(past) || (!row.deletionRequested && Undercuts(Row(past), row.overrides))
    case Then(past, Saved(row, _)) =>
      Undercut(past) && (row.runtime.retirementDrainUntil.Some? || !Apart(row))
    case Then(past, _) => Undercut(past)
  }

  predicate ServesRequests(profiles: map<string, Component>, k: string) {
    k in profiles && profiles[k].HasEndpoint()
  }

  /** A verified baseline, or one of these components serving requests: there is an endpoint to route. */
  predicate NeedsRoutes(plan: Plan, names: set<string>) {
    plan.baseline.verificationKind != "none" || exists k :: k in names && ServesRequests(plan.profiles, k)
  }

  /** The profile of the component is known and serves no requests: it is never routed. */
  predicate Silent(plan: Option<Plan>, k: string) {
    plan.Some? && k in plan.value.profiles && !plan.value.profiles[k].HasEndpoint()
  }

  /** A deadline is set, or a component that may be routed retires or is about to. */
  ghost predicate AtStake(c: Composition) {
    c.runtime.retirementDrainUntil.Some? ||
    exists k {:trigger Silent(c.plan, k)} ::
      (k in c.runtime.retiring || (k in c.runtime.published && k !in c.overrides)) && !Silent(c.plan, k)
  }

  /** A desired selection that is deployed without routes, and retired without a drain. */
  predicate EndpointFree(c: Composition) {
    c.plan.Some? && !NeedsRoutes(c.plan.value, c.overrides.Keys)
  }

  /** Such a selection was accepted, at creation or by an update. */
  ghost predicate Detached(h: History) {
    match h
    case Begin(row) => EndpointFree(row)
    case Then(past, Desired(row)) => Detached(past) || (!row.deletionRequested && EndpointFree(row))
    case Then(past, _) => Detached(past)
  }

  /** Such a selection was accepted with something at stake, and the stored row has had something at stake since. */
  ghost predicate Astray(h: History) {
    match h
    case Begin(row) => EndpointFree(row) && AtStake(row)
    case Then(past, Desired(row)) => Astray(past) || (!row.deletionRequested && EndpointFree(row) && AtStake(row))
    case Then(past, Saved(row, _)) => Astray(past) && AtStake(row)
    case Then(past, _) => Astray(past)
  }

  /** No snapshot was ever offered that routes the component. */
  ghost predicate NeverRouted(h: History, id: string, component: string) {
    match h
    case Begin(_) => true
    case Then(past, Offered(_, _, s)) => component !in MeshOf(s, id) && NeverRouted(past, id, component)
    case Then(past, Accepted(_, s)) => component !in MeshOf(s, id) && NeverRouted(past, id, component)
    case Then(past, _) => NeverRouted(past, id, component)
  }

  /** The latest verification, with the baseline fingerprints last seen before it and first seen after it. */
  datatype Check =
    | Unchecked(seen: Option<string>)
    | Checked(before: Option<string>, generation: int, passed: bool)
    | Confirmed(before: Option<string>, generation: int, passed: bool, after: string)

  ghost function LatestCheck(h: History): Check {
    match h
    case Begin(_) => Unchecked(None)
    case Then(past, BaselineObserved(fingerprint)) =>
      (match LatestCheck(past)
       case Checked(before, generation, passed) => Confirmed(before, generation, passed, fingerprint)
       case _ => Unchecked(Some(fingerprint)))
    case Then(past, Verified(generation, passed)) =>
      (match LatestCheck(past)
       case Unchecked(seen) => Checked(seen, generation, passed)
       case Checked(before, _, _) => Checked(before, generation, passed)
       case Confirmed(_, _, _, after) => Checked(Some(after), generation, passed))
    case Then(past, _) => LatestCheck(past)
  }

  // ----- Rules -----

  predicate VerificationNone(c: Composition) {
    c.plan.Some? && c.plan.value.baseline.verificationKind == "none"
  }

  predicate HasReadyEndpoint(c: Composition) {
    exists k :: k in c.endpoints && c.endpoints[k].ready
  }

  predicate GoodStatus(s: ComponentStatus) {
    s == StatusReady || s == StatusExecution(Succeeded)
  }

  /** Everything a ready endpoint promises about the row that reports it. */
  predicate Backed(c: Composition) {
    && c.phase == Ready
    && c.runtime.published == c.overrides
    && c.runtime.retiring == map[]
    && c.lastError.None?
    && (forall k :: k in c.overrides ==> k in c.components && GoodStatus(c.components[k]))
    && c.pendingVerification.Some?
    && c.pendingVerification.value.generation == c.generation
    && c.pendingVerification.value.passed
    && (c.baselineObservation.Some? ==>
          c.pendingVerification.value.baselineFingerprint == c.baselineObservation.value.fingerprint)
  }

  predicate HonestReadiness(c: Composition) {
    HasReadyEndpoint(c) ==> Backed(c)
  }

  /** The check behind a ready row: of its generation, passed, and with one baseline before and after. */
  ghost predicate CheckedFor(h: History, c: Composition, setting: Setting) {
    match LatestCheck(h)
    case Unchecked(_) => false
    case Checked(_, generation, passed) =>
      generation == c.generation && passed && (!setting.observer || VerificationNone(c))
    case Confirmed(before, generation, passed, after) =>
      generation == c.generation && passed && before == Some(after) &&
      c.baselineObservation.Some? && c.baselineObservation.value.fingerprint == after
  }

  /** An execution that must not be replaced. */
  predicate Busy(e: ExecutionRef, scheduled: bool) {
    e.state == Pending || e.state == Running || (scheduled && e.state == ExecutionReady)
  }

  predicate IsJob(profile: Component) {
    profile.Kind() == Job || profile.Kind() == ScheduledJob
  }

  predicate JobIn(c: Composition, component: string) {
    c.plan.Some? && component in c.plan.value.profiles && IsJob(c.plan.value.profiles[component])
  }

  predicate Scheduled(c: Composition, component: string) {
    c.plan.Some? && component in c.plan.value.profiles && c.plan.value.profiles[component].Kind() == ScheduledJob
  }

  /** Executions are never forgotten, and their ids change only once the stored execution is over. */
  ghost predicate ReplacesOnlyIdle(before: Composition, after: Composition) {
    forall k :: k in before.runtime.executions ==>
      k in after.runtime.executions &&
      (after.runtime.executions[k].id == before.runtime.executions[k].id ||
       !Busy(before.runtime.executions[k], Scheduled(after, k)))
  }

  /** The stored row lists every planned subscription as ready. */
  predicate Recorded(c: Composition) {
    c.plan.Some? && |c.subscriptions| == |c.plan.value.subscriptions| &&
    forall i :: 0 <= i < |c.subscriptions| ==>
      c.subscriptions[i].ready && c.subscriptions[i].name == c.plan.value.subscriptions[i].name
  }

  /** Recorded workloads agree on the namespace to delete. */
  ghost predicate Agreeing(owned: map<string, WorkloadRef>, namespace: string, token: string, uid: string) {
    forall k :: k in owned && owned[k].namespace != "" ==>
      owned[k].namespace == namespace && owned[k].ownershipToken == token &&
      (owned[k].namespaceUID == "" || owned[k].namespaceUID == uid)
  }

  function OwnedWorkloads(c: Composition): map<string, WorkloadRef> {
    c.runtime.workloads + c.runtime.retiring
  }

  /** A period of the given length that started at `since` is over. */
  predicate Elapsed(since: Option<int>, period: nat, at: int) {
    since.Some? && since.value + period <= at
  }

  /** Nothing of the composition is left: routes withdrawn, workloads absent, subscriptions deleted. */
  ghost predicate Dismantled(h: History, c: Composition, id: string) {
    && IngressClearSince(h, id).Some? && MeshEmptySince(h, id).Some?
    && !WorkloadsMayExist(h)
    && (c.messageIsolation ==> !SubscriptionsExist(h))
  }

  /** The baseline and its subscriptions stay, and so do the profiles that are already resolved. */
  ghost predicate PlanKept(a: Composition, b: Composition) {
    && (a.plan.Some? <==> b.plan.Some?)
    && (a.plan.Some? ==>
          && b.plan.value.baseline == a.plan.value.baseline && b.plan.value.subscriptions == a.plan.value.subscriptions
          && forall k :: k in a.plan.value.profiles ==>
               k in b.plan.value.profiles && b.plan.value.profiles[k] == a.plan.value.profiles[k])
  }

  /** What later rows never take back: isolation, resolved profiles, deletion, routing intent and route removal. */
  ghost predicate Onward(before: Composition, after: Composition) {
    && PlanKept(before, after)
    && before.messageIsolation == after.messageIsolation
    && (before.deletionRequested ==> after.deletionRequested)
    && (before.runtime.routingActive ==> after.runtime.routingActive)
    && (before.runtime.routesRemoved ==> after.runtime.routesRemoved)
  }

  /** A snapshot says of the composition what this row asks for. */
  predicate SnapshotFrom(s: Snapshot, from: Composition, id: string) {
    MeshOf(s, id) == MeshComponents(from) && (from.deletionRequested ==> !IngressOf(s, id))
  }

  /** The stored row is deleted, and the snapshot would take a routed component of its selection out of the mesh. */
  ghost predicate Withdraws(h: History, s: Snapshot, id: string, component: string) {
    Row(h).deletionRequested && PublishedEndpoint(Row(h), component) &&
    component in MeshOffered(h, id) && component !in MeshOf(s, id)
  }

  /**
   The stored selection is without the component, whose route has been gone for a full drain or, where
   some selection needed no routes, never was there.
   */
  ghost predicate Outlives(h: History, component: string, at: int, setting: Setting) {
    component !in Row(h).runtime.published &&
    (Elapsed(MeshClearSince(h, setting.id, component), setting.drain, at) ||
     (Detached(h) && NeverRouted(h, setting.id, component)))
  }

  ghost predicate Permitted(h: History, e: Event, setting: Setting) {
    var id := setting.id;
    match e
    // Only what some stored row asked for is offered; teardown leaves the mesh after the drain of a closed ingress.
    case Offered(at, from, s) =>
      WasStored(h, from) && SnapshotFrom(s, from, id) &&
      forall k :: Withdraws(h, s, id, k) ==> Elapsed(QuietSince(h, id), setting.drain, at)
    case Accepted(at, s) => LastOffered(h) == Some(s)
    case NamespaceDeleted(uid) =>
      IngressClearSince(h, id).Some? && MeshEmptySince(h, id).Some? &&
      Agreeing(OwnedWorkloads(Row(h)), NamespaceForID(id), Row(h).runtime.ownershipToken, uid)
    // Retirement outlives the route, if ever there was one: an accepted snapshot without it, and a full drain.
    case WorkloadDeleted(component, at) =>
      Undercut(h) || Astray(h) || Outlives(h, component, at, setting)
    case Saved(row, at) =>
      HonestReadiness(row) && (HasReadyEndpoint(row) ==> CheckedFor(h, row, setting)) &&
      ReplacesOnlyIdle(Row(h), row) && (row.phase == Destroyed ==> Dismantled(h, row, id)) && Onward(Row(h), row)
    case WorkloadEnsured(component, execution) =>
      (JobIn(Row(h), component) ==> execution.Some?) &&
      (execution.Some? ==>
        component in Row(h).runtime.executions && Row(h).runtime.executions[component].id == execution.value) &&
      (Row(h).messageIsolation ==> SubscriptionsExist(h) && Recorded(Row(h)))
    case SubscriptionsDeleted => !WorkloadsMayExist(h)
    case Desired(row) => row.runtime == Row(h).runtime && Onward(Row(h), row)
    case _ => true
  }

  ghost predicate Safe(h: History, setting: Setting) {
    h.Begin? || (Safe(h.past, setting) && Permitted(h.past, h.event, setting))
  }

  // ----- Meaning of the rules, spelled out over the whole history -----

  /** p is h, or h some events ago. */
  ghost predicate Past(p: History, h: History) {
    p == h || (h.Then? && Past(p, h.past))
  }

  /** No snapshot offered after p carries an entry that `carries` finds. */
  ghost predicate NotOfferedSince(p: History, h: History, carries: Snapshot -> bool) {
    p == h || (h.Then? && (h.event.Offered? ==> !carries(h.event.snapshot)) && NotOfferedSince(p, h.past, carries))
  }

  function CarriesMesh(id: string): Snapshot -> bool {
    (s: Snapshot) => MeshOf(s, id) != {}
  }

  function CarriesComponent(id: string, component: string): Snapshot -> bool {
    (s: Snapshot) => component in MeshOf(s, id)
  }

  function CarriesIngress(id: string): Snapshot -> bool {
    (s: Snapshot) => IngressOf(s, id)
  }

  lemma {:induction false} SafeBefore(p: History, h: History, setting: Setting)
    requires Past(p, h) && Safe(h, setting)
    ensures Safe(p, setting)
  {
    if p != h {
      SafeBefore(p, h.past, setting);
    }
  }

  lemma {:induction false} MeshEmptyMeans(h: History, id: string) returns (p: History, s: Snapshot)
    requires MeshEmptySince(h, id).Some?
    ensures var since := Then(p, Accepted(MeshEmptySince(h, id).value, s));
            Past(since, h) && MeshOf(s, id) == {} && NotOfferedSince(since, h, CarriesMesh(id))
  {
    if h.event.Accepted? && MeshEmptySince(h.past, id).None? {
      p, s := h.past, h.event.snapshot;
    } else {
      p, s := MeshEmptyMeans(h.past, id);
    }
  }

  lemma {:induction false} IngressClearMeans(h: History, id: string) returns (p: History, s: Snapshot)
    requires IngressClearSince(h, id).Some?
    ensures var since := Then(p, Accepted(IngressClearSince(h, id).value, s));
            Past(since, h) && !IngressOf(s, id) && NotOfferedSince(since, h, CarriesIngress(id))
  {
    if h.event.Accepted? && IngressClearSince(h.past, id).None? {
      p, s := h.past, h.event.snapshot;
    } else {
      p, s := IngressClearMeans(h.past, id);
    }
  }

  lemma {:induction false} MeshClearMeans(h: History, id: string, component: string) returns (p: History, s: Snapshot)
    requires MeshClearSince(h, id, component).Some?
    ensures var since := Then(p, Accepted(MeshClearSince(h, id, component).value, s));
            Past(since, h) && component !in MeshOf(s, id) && NotOfferedSince(since, h, CarriesComponent(id, component))
  {
    if h.event.Accepted? && MeshClearSince(h.past, id, component).None? {
      p, s := h.past, h.event.snapshot;
    } else {
      p, s := MeshClearMeans(h.past, id, component);
    }
  }

  /** A quiet period starts with an absence check made while an accepted snapshot without ingress was in force. */
  lemma {:induction false} QuietMeans(h: History, id: string) returns (p: History)
    requires QuietSince(h, id).Some?
    ensures IngressClearSince(p, id).Some?
    ensures var check := Then(p, AbsenceConfirmed(QuietSince(h, id).value));
            Past(check, h) && NotOfferedSince(check, h, CarriesIngress(id))
  {
    if h.event.AbsenceConfirmed? && QuietSince(h.past, id).None? {
      p := h.past;
    } else {
      p := QuietMeans(h.past, id);
    }
  }

  /**
   In every safe run, at every namespace deletion: the provider had accepted a snapshot without
   ingress and one without mesh entries, and neither kind of entry was offered again.
   */
  lemma NamespaceDeletedAfterWithdrawal(h: History, p: History, uid: string, setting: Setting)
    returns (i: History, mesh: Snapshot, j: History, ingress: Snapshot)
    requires Safe(h, setting) && Past(Then(p, NamespaceDeleted(uid)), h)
    ensures MeshEmptySince(p, setting.id).Some? && IngressClearSince(p, setting.id).Some?
    ensures var since := Then(i, Accepted(MeshEmptySince(p, setting.id).value, mesh));
            Past(since, p) && MeshOf(mesh, setting.id) == {} && NotOfferedSince(since, p, CarriesMesh(setting.id))
    ensures var since := Then(j, Accepted(IngressClearSince(p, setting.id).value, ingress));
            Past(since, p) && !IngressOf(ingress, setting.id) && NotOfferedSince(since, p, CarriesIngress(setting.id))
  {
    SafeBefore(Then(p, NamespaceDeleted(uid)), h, setting);
    i, mesh := MeshEmptyMeans(p, setting.id);
    j, ingress := IngressClearMeans(p, setting.id);
  }

  /** Every snapshot offered in a safe run says of the composition what a row stored before asked for. */
  lemma {:induction false} OfferedWasStored(h: History, p: History, at: int, from: Composition, s: Snapshot, setting: Setting)
    returns (q: History)
    requires Safe(h, setting) && Past(Then(p, Offered(at, from, s)), h)
    ensures Past(q, p) && Row(q) == from && SnapshotFrom(s, Row(q), setting.id)
  {
    SafeBefore(Then(p, Offered(at, from, s)), h, setting);
    q := StoredAt(p, from);
  }

  lemma {:induction false} StoredAt(h: History, row: Composition) returns (q: History)
    requires WasStored(h, row)
    ensures Past(q, h) && Row(q) == row
  {
    if Row(h) == row {
      q := h;
    } else {
      q := StoredAt(h.past, row);
    }
  }

  /**
   In every safe run, once the stored row is deleted, a snapshot that takes a component of its stored
   selection out of the mesh, where the snapshot last offered had it, comes only a full drain period
   after an absence check made behind an accepted, never reopened, closed ingress.
   */
  lemma MeshWithdrawnAfterDrain(h: History, p: History, at: int, from: Composition, s: Snapshot, k: string, setting: Setting)
    returns (check: History, checked: int)
    requires Safe(h, setting) && Past(Then(p, Offered(at, from, s)), h)
    requires Row(p).deletionRequested && PublishedEndpoint(Row(p), k)
    requires k in MeshOffered(p, setting.id) && k !in MeshOf(s, setting.id)
    ensures IngressClearSince(check, setting.id).Some? && Past(Then(check, AbsenceConfirmed(checked)), p)
    ensures NotOfferedSince(Then(check, AbsenceConfirmed(checked)), p, CarriesIngress(setting.id))
    ensures checked + setting.drain <= at
  {
    SafeBefore(Then(p, Offered(at, from, s)), h, setting);
    assert Withdraws(p, s, setting.id, k);
    checked := QuietSince(p, setting.id).value;
    check := QuietMeans(p, setting.id);
  }

  /**
   In every safe run, unless an update undercut a retirement, or a selection without endpoints was
   accepted with something at stake, and the row has not been settled since, a retired workload is deleted
   only while the stored selection excludes it, and a full drain period after the provider accepted a
   snapshot without its route, never offered since; or, where some selection needed no routes at all,
   because no snapshot ever offered routes it.
   */
  lemma WorkloadDeletedAfterDrain(h: History, p: History, k: string, at: int, setting: Setting)
    returns (q: History, accepted: int, s: Snapshot)
    requires Safe(h, setting) && Past(Then(p, WorkloadDeleted(k, at)), h)
    requires !Undercut(p) && !Astray(p)
    ensures k !in Row(p).runtime.published
    ensures (Detached(p) && NeverRouted(p, setting.id, k)) ||
            (&& Past(Then(q, Accepted(accepted, s)), p) && k !in MeshOf(s, setting.id)
             && NotOfferedSince(Then(q, Accepted(accepted, s)), p, CarriesComponent(setting.id, k))
             && accepted + setting.drain <= at)
  {
    SafeBefore(Then(p, WorkloadDeleted(k, at)), h, setting);
    q, accepted, s := p, at, EMPTY;
    if !(Detached(p) && NeverRouted(p, setting.id, k)) {
      accepted := MeshClearSince(p, setting.id, k).value;
      q, s := MeshClearMeans(p, setting.id, k);
    }
  }

  lemma OnwardTransitive(a: Composition, b: Composition, c: Composition)
    requires Onward(a, b) && Onward(b, c)
    ensures Onward(a, c)
  {
  }

  /** In every safe run, later rows keep what earlier ones decided for good. */
  lemma {:induction false} NeverTakenBack(p: History, h: History, setting: Setting)
    requires Safe(h, setting) && Past(p, h)
    ensures Onward(Row(p), Row(h))
  {
    if p != h {
      NeverTakenBack(p, h.past, setting);
      OnwardTransitive(Row(p), Row(h.past), Row(h));
    }
  }

  /** A component that the last offered snapshot routes has an endpoint in the stored plan, and routing is active. */
  lemma {:induction false} OfferedServes(h: History, k: string, setting: Setting)
    requires Safe(h, setting) && k in MeshOffered(h, setting.id)
    ensures Row(h).runtime.routingActive && Row(h).plan.Some? && ServesRequests(Row(h).plan.value.profiles, k)
  {
    if h.event.Offered? {
      var q := StoredAt(h.past, h.event.from);
      NeverTakenBack(q, h.past, setting);
    } else {
      OfferedServes(h.past, k, setting);
      assert Onward(Row(h.past), Row(h));
    }
  }

  /** A component whose profile, once it is resolved, serves no requests was never routed. */
  lemma {:induction false} SilentNeverRouted(h: History, row: Composition, k: string, setting: Setting)
    requires Safe(h, setting) && PlanKept(Row(h), row) && Silent(row.plan, k)
    ensures NeverRouted(h, setting.id, k) && k !in MeshOffered(h, setting.id)
  {
    if h.Then? {
      assert PlanKept(Row(h.past), row);
      SilentNeverRouted(h.past, row, k, setting);
      if h.event.Offered? {
        var q := StoredAt(h.past, h.event.from);
        NeverTakenBack(q, h.past, setting);
      }
    }
  }

  /** What the provider has been running without is not in the snapshot it was last offered. */
  lemma {:induction false} ClearIsNotOffered(h: History, k: string, setting: Setting)
    requires Safe(h, setting) && MeshClearSince(h, setting.id, k).Some?
    ensures k !in MeshOffered(h, setting.id)
  {
    if !h.event.Offered? && !h.event.Accepted? {
      ClearIsNotOffered(h.past, k, setting);
    }
  }

  // ----- Isolation -----

  /** In every safe run of an isolated composition, its subscriptions exist while any workload may. */
  lemma {:induction false} IsolationKept(h: History, setting: Setting)
    requires Safe(h, setting) && Row(h).messageIsolation
    ensures WorkloadsMayExist(h) ==> SubscriptionsExist(h)
  {
    if h.Then? {
      assert Onward(Row(h.past), Row(h));
      IsolationKept(h.past, setting);
    }
  }

  /** And every planned subscription exists and is stored as ready at each request for a workload, the first included. */
  lemma {:induction false} SubscriptionsRecordedFirst(h: History, p: History, k: string, execution: Option<string>, setting: Setting)
    requires Safe(h, setting) && Row(h).messageIsolation && Past(Then(p, WorkloadEnsured(k, execution)), h)
    ensures SubscriptionsExist(p) && Row(p).plan.Some? && |Row(p).subscriptions| == |Row(p).plan.value.subscriptions|
    ensures forall i :: 0 <= i < |Row(p).subscriptions| ==>
              Row(p).subscriptions[i].ready && Row(p).subscriptions[i].name == Row(p).plan.value.subscriptions[i].name
  {
    SafeBefore(Then(p, WorkloadEnsured(k, execution)), h, setting);
    NeverTakenBack(Then(p, WorkloadEnsured(k, execution)), h, setting);
  }

  // ----- Executions -----

  lemma {:induction false} PastTransitive(a: History, b: History, c: History)
    requires Past(a, b) && Past(b, c)
    ensures Past(a, c)
  {
    if b != c {
      PastTransitive(a, b, c.past);
    }
  }

  /** The save that replaced an execution, seen from the row before it. */
  ghost predicate ReplacedIdle(q: History, row: Composition, k: string, id: string) {
    && k in Row(q).runtime.executions && Row(q).runtime.executions[k].id == id
    && k in row.runtime.executions && row.runtime.executions[k].id != id
    && Row(q).runtime.executions[k].state != Pending && Row(q).runtime.executions[k].state != Running
    && (row.plan.Some? && k in row.plan.value.profiles && row.plan.value.profiles[k].Kind() == ScheduledJob ==>
          Row(q).runtime.executions[k].state != ExecutionReady)
  }

  /**
   In every safe run an execution once stored stays stored. If its id is another one later, some save
   in between replaced it, and the execution stored then was neither pending nor running, nor a ready
   schedule.
   */
  lemma {:induction false} ExecutionReplacedOnlyIdle(p: History, h: History, k: string, setting: Setting)
    returns (q: History, row: Composition, at: int)
    requires Safe(h, setting) && Past(p, h) && k in Row(p).runtime.executions
    ensures k in Row(h).runtime.executions
    ensures Row(h).runtime.executions[k].id != Row(p).runtime.executions[k].id ==>
              Past(p, q) && Past(Then(q, Saved(row, at)), h) && ReplacedIdle(q, row, k, Row(p).runtime.executions[k].id)
  {
    q, row, at := p, Row(p), 0;
    if p != h {
      q, row, at := ExecutionReplacedOnlyIdle(p, h.past, k, setting);
      var id := Row(p).runtime.executions[k].id;
      if Row(h.past).runtime.executions[k].id == id && h.event.Saved? {
        q, row, at := h.past, h.event.row, h.event.at;
      }
    }
  }

  /** Every request for a job carries an execution id, and the id is already stored. */
  lemma {:induction false} EnsuredExecutionStored(h: History, p: History, k: string, execution: Option<string>, setting: Setting)
    requires Safe(h, setting) && Past(Then(p, WorkloadEnsured(k, execution)), h) && JobIn(Row(p), k)
    ensures execution.Some? && k in Row(p).runtime.executions && Row(p).runtime.executions[k].id == execution.value
  {
    SafeBefore(Then(p, WorkloadEnsured(k, execution)), h, setting);
  }

  // ----- Readiness -----

  /** The fingerprint of the last baseline observation, if any. */
  ghost function LastSeen(h: History): Option<string> {
    match h
    case Begin(_) => None
    case Then(_, BaselineObserved(fingerprint)) => Some(fingerprint)
    case Then(past, _) => LastSeen(past)
  }

  /** What the summary of the latest check says about the history behind it. */
  lemma {:induction false} CheckMeans(h: History) returns (q: History)
    ensures LatestCheck(h).Unchecked? ==> LatestCheck(h).seen == LastSeen(h)
    ensures LatestCheck(h).Checked? ==>
              && Past(Then(q, Verified(LatestCheck(h).generation, LatestCheck(h).passed)), h)
              && LatestCheck(h).before == LastSeen(q) == LastSeen(h)
    ensures LatestCheck(h).Confirmed? ==>
              && Past(Then(q, Verified(LatestCheck(h).generation, LatestCheck(h).passed)), h)
              && LatestCheck(h).before == LastSeen(q)
              && LastSeen(h) == Some(LatestCheck(h).after)
  {
    q := h;
    if h.Then? {
      q := CheckMeans(h.past);
      if h.event.Verified? {
        q := h.past;
      }
    }
  }

  /**
   In every safe run, a stored row with a ready endpoint is backed by its own fields and by a check of
   its generation that passed; where a baseline observer is present, the baseline last seen before the
   check, the one last seen now and the one in the row are the same.
   */
  lemma ReadyMeansChecked(h: History, p: History, row: Composition, at: int, setting: Setting) returns (q: History)
    requires Safe(h, setting) && Past(Then(p, Saved(row, at)), h) && HasReadyEndpoint(row)
    ensures row.phase == Ready && row.lastError.None? && row.runtime.published == row.overrides && row.runtime.retiring == map[]
    ensures forall k :: k in row.overrides ==>
              k in row.components && row.components[k] in {StatusReady, StatusExecution(Succeeded)}
    ensures row.pendingVerification.Some? && row.pendingVerification.value.passed
    ensures row.pendingVerification.value.generation == row.generation
    ensures row.baselineObservation.Some? ==>
              row.pendingVerification.value.baselineFingerprint == row.baselineObservation.value.fingerprint
    ensures Past(Then(q, Verified(row.generation, true)), p)
    ensures setting.observer && !VerificationNone(row) ==>
              row.baselineObservation.Some? &&
              LastSeen(q) == LastSeen(p) == Some(row.baselineObservation.value.fingerprint)
  {
    SafeBefore(Then(p, Saved(row, at)), h, setting);
    q := CheckMeans(p);
  }

  /** A composition is stored as destroyed only when nothing of it is left. */
  lemma {:induction false} DestroyedMeansGone(h: History, p: History, row: Composition, at: int, setting: Setting)
    requires Safe(h, setting) && Past(Then(p, Saved(row, at)), h) && row.phase == Destroyed
    ensures MeshEmptySince(p, setting.id).Some? && IngressClearSince(p, setting.id).Some?
    ensures !WorkloadsMayExist(p) && (row.messageIsolation ==> !SubscriptionsExist(p))
  {
    SafeBefore(Then(p, Saved(row, at)), h, setting);
  }
}
