/**
 The world around one composition: its durable row, the other rows, the clock, the snapshot another
 worker may hold in flight under the route lock, and the history so far. A `World` satisfies `Inv` by
 its type, so every moment of a run does; `Keeps` and `Follows` are what a worker may rely on while
 others act.
 */
module World {
  import opened Domain
  import opened RouteTable
  import opened History

  /** A snapshot read from the store under the route lock; `offered` once the provider has seen it. */
  datatype Read = Read(from: Composition, snapshot: Snapshot, offered: bool)

  datatype State = State(
    setting: Setting,
    row: Composition,
    others: seq<Composition>,
    now: int,
    inFlight: Option<Read>,
    h: History)

  type World = w: State | Inv(w) ghost witness Start(Setting("", 0, false), [], 0, BLANK)

  /** The rows that are not destroyed. */
  function Active(w: State): seq<Composition> {
    if w.row.phase == Destroyed then w.others else w.others + [w.row]
  }

  /** All rows but a destroyed one, each once. */
  lemma ActiveSays(w: State)
    ensures multiset(Active(w)) == multiset(w.others) + if w.row.phase == Destroyed then multiset{} else multiset{w.row}
  {
  }

  ghost predicate OtherRows(others: seq<Composition>, id: string) {
    DistinctIDs(others) && forall c :: c in others ==> c.id != id
  }

  // ----- Sources of route entries that are shut for good -----

  /** Ingress is shut: the row cannot ask for it, nobody is about to offer it, the provider runs without it. */
  ghost predicate Closed(w: State) {
    w.row.deletionRequested && IngressClearSince(w.h, w.setting.id).Some? &&
    (w.inFlight.Some? ==> !IngressOf(w.inFlight.value.snapshot, w.setting.id))
  }

  ghost predicate Unmeshed(w: State) {
    w.row.deletionRequested && !Meshed(w.row) && MeshEmptySince(w.h, w.setting.id).Some? &&
    (w.inFlight.Some? ==> MeshOf(w.inFlight.value.snapshot, w.setting.id) == {})
  }

  ghost predicate Gone(w: State, component: string) {
    component !in w.row.runtime.published && ClearSince(w, component).Some? &&
    (w.inFlight.Some? ==> component !in MeshOf(w.inFlight.value.snapshot, w.setting.id))
  }

  ghost function ClearSince(w: State, component: string): Option<int> {
    MeshClearSince(w.h, w.setting.id, component)
  }

  ghost function Quiet(w: State): Option<int> {
    QuietSince(w.h, w.setting.id)
  }

  // ----- Invariant -----

  /** What is known of a deadline in c that lets retired workloads go. */
  ghost predicate DeadlineLawful(w: State, c: Composition) {
    var rt := c.runtime;
    rt.retirementDrainUntil.Some? ==>
      rt.retiring != map[] && (forall k :: k in rt.published ==> k in c.overrides) &&
      forall k :: k in rt.retiring ==>
        Gone(w, k) && Elapsed(ClearSince(w, k), w.setting.drain, rt.retirementDrainUntil.value)
  }

  /** Unless an update undercut a retirement; a deadline may also be astray, but what retires is still apart. */
  ghost predicate RetirementLawful(w: State, c: Composition) {
    Undercut(w.h) || (Apart(c) && (Astray(w.h) || DeadlineLawful(w, c)))
  }

  /** The drain deadline of a teardown starts at the earliest with the quiet period of a closed ingress. */
  ghost predicate TeardownLawful(w: State, c: Composition) {
    var rt := c.runtime;
    && (rt.drainUntil.Some? ==>
          c.deletionRequested && Closed(w) && Elapsed(Quiet(w), w.setting.drain, rt.drainUntil.value))
    && (rt.routesRemoved ==> rt.drainUntil.Some? && rt.drainUntil.value <= w.now)
    && (c.phase == Destroyed ==> c.deletionRequested && (rt.routingActive ==> rt.routesRemoved))
  }

  /** A row, or a row about to be saved, whose deadlines are backed by the history. */
  ghost predicate Lawful(w: State, c: Composition) {
    TeardownLawful(w, c) && RetirementLawful(w, c)
  }

  /** Whatever of the stored selection is routed now, the snapshot routes too, unless it was read after the removal. */
  ghost predicate Covers(w: State, r: Read) {
    forall k :: k in MeshOffered(w.h, w.setting.id) && PublishedEndpoint(w.row, k) ==>
      k in MeshOf(r.snapshot, w.setting.id) || r.from.runtime.routesRemoved
  }

  ghost predicate ReadLawful(w: State, r: Read) {
    && WasStored(w.h, r.from) && SnapshotFrom(r.snapshot, r.from, w.setting.id)
    && (if r.offered then LastOffered(w.h) == Some(r.snapshot) else Covers(w, r))
    && (r.from.phase == Destroyed && r.from.runtime.routingActive ==> r.from.runtime.routesRemoved)
    && (r.from.runtime.routesRemoved ==> Closed(w) && Elapsed(Quiet(w), w.setting.drain, w.now))
  }

  /** While a selection without endpoints is desired, the history tells of it and of all that is at stake in the copy. */
  ghost predicate Reckoned(w: State, base: Composition, c: Composition) {
    EndpointFree(base) ==> Detached(w.h) && (AtStake(base) || AtStake(c) ==> Astray(w.h))
  }

  ghost predicate NotAfter(t: Option<int>, now: int) {
    t.Some? ==> t.value <= now
  }

  ghost predicate TimesPast(w: State) {
    NotAfter(Quiet(w), w.now) && forall k :: NotAfter(ClearSince(w, k), w.now)
  }

  ghost predicate Inv(w: State) {
    && w.row.id == w.setting.id
    && OtherRows(w.others, w.setting.id)
    && Row(w.h) == w.row
    && Safe(w.h, w.setting)
    && TimesPast(w)
    && Lawful(w, w.row) && Reckoned(w, w.row, w.row)
    && (w.inFlight.Some? ==> ReadLawful(w, w.inFlight.value))
  }

  // ----- The first moment -----

  /** A row as a create request writes it, before any reconciliation. */
  predicate Fresh(c: Composition) {
    && !c.deletionRequested && c.phase == Created
    && c.runtime.published == map[] && c.runtime.retiring == map[] && c.runtime.retirementDrainUntil.None?
    && !c.runtime.routingActive && !c.runtime.routesRemoved && c.runtime.drainUntil.None?
  }

  const BLANK := Composition(
    "", false, [], map[], 1, Created, 0, map[], map[], Operation("create", OperationPending), None, false, None, None,
    None, Schedule(0, 0, None, 0, 0), RuntimeState("", map[], map[], map[], map[], None, false, false, None))

  ghost function Start(setting: Setting, others: seq<Composition>, now: int, row: Composition): (w: State)
    requires row.id == setting.id && Fresh(row) && OtherRows(others, setting.id)
    ensures Inv(w)
  {
    State(setting, row, others, now, None, Begin(row))
  }

  // ----- Interference -----

  /** What no action takes back, except the worker's own save. */
  ghost predicate Keeps(a: State, b: State) {
    && a.setting == b.setting
    && a.now <= b.now
    && (Closed(a) ==> Closed(b) && (Quiet(a).Some? ==> Quiet(b) == Quiet(a)))
    && (Unmeshed(a) ==> Unmeshed(b))
    && (forall k :: Gone(a, k) ==> Gone(b, k) && ClearSince(b, k) == ClearSince(a, k))
    && (Undercut(a.h) ==> Undercut(b.h)) && (Detached(a.h) ==> Detached(b.h)) && (Astray(a.h) ==> Astray(b.h))
  }

  /** Facts that only this composition's own worker changes. */
  ghost predicate Unaffected(a: State, b: State) {
    && SubscriptionsExist(b.h) == SubscriptionsExist(a.h)
    && WorkloadsMayExist(b.h) == WorkloadsMayExist(a.h)
    && LatestCheck(b.h) == LatestCheck(a.h)
    && Calls(b.h) == Calls(a.h)
  }

  /** row is still the one last written by the worker, or the API has moved its generation on. */
  ghost predicate Follows(base: Composition, row: Composition) {
    row == base ||
    (&& !base.deletionRequested
     && base.generation < row.generation
     && row.id == base.id
     && row.runtime == base.runtime
     && row.subscriptions == base.subscriptions
     && row.messageIsolation == base.messageIsolation
     && PlanKept(base, row))
  }

  /** What a pass may observe leaves these alone. */
  function Intent(c: Composition): (string, int, bool, Option<Plan>, Selection, bool) {
    (c.id, c.generation, c.deletionRequested, c.plan, c.overrides, c.messageIsolation)
  }

  /** A newly published endpoint component has no routes from earlier that anybody could still bring or withdraw. */
  ghost predicate Entering(w: State, base: Composition, c: Composition) {
    forall k :: k !in base.runtime.published && PublishedEndpoint(c, k) ==> Gone(w, k)
  }

  /** The copies a worker may hold of the row it loaded or last saved as `base`. */
  ghost function Copies(w: State, base: Composition): iset<Composition> {
    iset c: Composition |
      && Follows(base, w.row) && Intent(c) == Intent(base) && Lawful(w, c)
      && Onward(base, c) && Entering(w, base, c) && Reckoned(w, base, c)
  }

  lemma LawfulKept(a: State, b: State, c: Composition)
    requires Lawful(a, c) && Keeps(a, b)
    ensures Lawful(b, c)
  {
  }

  /** A copy stays one while others act. */
  lemma CopyKept(a: State, b: State, base: Composition, c: Composition)
    requires c in Copies(a, base) && Follows(base, b.row) && Keeps(a, b)
    ensures c in Copies(b, base)
  {
    LawfulKept(a, b, c);
  }

  lemma KeepsTransitive(a: State, b: State, c: State)
    requires Keeps(a, b) && Keeps(b, c)
    ensures Keeps(a, c)
  {
  }

  /** An event that says nothing about routes or rows changes neither. */
  predicate Inert(e: Event) {
    !e.Offered? && !e.Accepted? && !e.AbsenceConfirmed? && !e.Saved? && !e.Desired?
  }

  function After(w: State, e: Event): State {
    w.(h := Then(w.h, e))
  }

  lemma InertKept(w: World, e: Event)
    requires Inert(e) && Permitted(w.h, e, w.setting)
    ensures Inv(After(w, e)) && Keeps(w, After(w, e))
  {
    var v := After(w, e);
    assert forall k :: ClearSince(v, k) == ClearSince(w, k);
    assert Keeps(w, v);
    LawfulKept(w, v, w.row);
  }

  lemma AbsenceKept(w: World)
    ensures var v := After(w, AbsenceConfirmed(w.now)); Inv(v) && Keeps(w, v)
  {
    var v := After(w, AbsenceConfirmed(w.now));
    assert forall k :: ClearSince(v, k) == ClearSince(w, k);
    assert Keeps(w, v);
    LawfulKept(w, v, w.row);
  }

  lemma TickKept(w: World, later: int)
    requires w.now <= later
    ensures Inv(w.(now := later)) && Keeps(w, w.(now := later))
  {
    var v: State := w.(now := later);
    assert forall k :: ClearSince(v, k) == ClearSince(w, k);
    LawfulKept(w, v, w.row);
  }

  lemma OthersKept(w: World, others: seq<Composition>)
    requires OtherRows(others, w.setting.id)
    ensures Inv(w.(others := others)) && Keeps(w, w.(others := others))
  {
    var v: State := w.(others := others);
    assert forall k :: ClearSince(v, k) == ClearSince(w, k);
    LawfulKept(w, v, w.row);
  }

  // ----- API writes -----

  function SetReady(c: Composition, ready: bool): (r: Composition)
    ensures HasReadyEndpoint(r) ==> ready
    ensures r == c.(endpoints := r.endpoints)
  {
    c.(endpoints := map k | k in c.endpoints :: c.endpoints[k].(ready := ready))
  }

  predicate Updatable(c: Composition, now: int) {
    !c.deletionRequested && now < c.expiresAt && (c.phase == Ready || c.phase == Failed)
  }

  function Extended(plan: Plan, profiles: map<string, Component>): Plan {
    plan.(profiles := profiles + plan.profiles)
  }

  /** An accepted update; the plan keeps its baseline, its subscriptions and the profiles it already has. */
  function Updated(c: Composition, overrides: Selection, profiles: map<string, Component>, now: int): Composition {
    SetReady(c, false).(
      generation := c.generation + 1,
      overrides := overrides,
      plan := if c.plan.Some? then Some(Extended(c.plan.value, profiles)) else None,
      phase := Updating,
      lastError := None,
      operation := Operation("update", OperationPending),
      schedule := c.schedule.(provisionStartedAt := Some(now), attempts := 0, nextAttemptAt := 0))
  }

  predicate Deletable(c: Composition) {
    !c.deletionRequested && c.phase != Destroyed
  }

  /** Deletion as requested by a client or by expiry. */
  function Deleted(c: Composition): Composition {
    SetReady(c, false).(
      generation := c.generation + 1,
      deletionRequested := true,
      phase := Destroying,
      lastError := None,
      operation := Operation("destroy", OperationPending),
      schedule := c.schedule.(attempts := 0, nextAttemptAt := 0))
  }

  /** Both writes start a new operation, take readiness back, make the next pass due, and touch no runtime state. */
  ghost predicate Rearmed(c: Composition, d: Composition, kind: string, phase: Phase) {
    && d.generation == c.generation + 1 && d.phase == phase && d.lastError.None?
    && d.operation == Operation(kind, OperationPending)
    && d.endpoints.Keys == c.endpoints.Keys
    && (forall k :: k in c.endpoints ==> d.endpoints[k] == Endpoint(c.endpoints[k].host, false))
    && d.schedule.attempts == 0 && d.schedule.nextAttemptAt == 0
    && d.schedule.createdAt == c.schedule.createdAt && d.schedule.observedGeneration == c.schedule.observedGeneration
    && d.runtime == c.runtime && d.id == c.id && d.expiresAt == c.expiresAt && d.components == c.components
    && d.subscriptions == c.subscriptions && d.messageIsolation == c.messageIsolation
    && d.baselineObservation == c.baselineObservation && d.pendingVerification == c.pendingVerification
  }

  /** An update desires exactly the new selection, and only adds profiles that the plan does not have yet. */
  lemma UpdateSays(c: Composition, overrides: Selection, profiles: map<string, Component>, now: int)
    ensures var d := Updated(c, overrides, profiles, now);
            && Rearmed(c, d, "update", Updating) && d.overrides == overrides && d.deletionRequested == c.deletionRequested
            && d.schedule.provisionStartedAt == Some(now)
            && (d.plan.Some? <==> c.plan.Some?)
            && (c.plan.Some? ==>
                  && d.plan.value.baseline == c.plan.value.baseline && d.plan.value.subscriptions == c.plan.value.subscriptions
                  && d.plan.value.profiles.Keys == profiles.Keys + c.plan.value.profiles.Keys
                  && forall k :: k in d.plan.value.profiles ==>
                       d.plan.value.profiles[k] == if k in c.plan.value.profiles then c.plan.value.profiles[k] else profiles[k])
  {
  }

  /** A deletion changes no selection and no plan. */
  lemma DeleteSays(c: Composition)
    ensures var d := Deleted(c);
            && Rearmed(c, d, "destroy", Destroying) && d.overrides == c.overrides && d.plan == c.plan && d.deletionRequested
            && d.schedule.provisionStartedAt == c.schedule.provisionStartedAt
  {
  }

  function Desires(w: State, row: Composition): State {
    w.(row := row, h := Then(w.h, Desired(row)))
  }

  lemma UpdateKept(w: World, overrides: Selection, profiles: map<string, Component>)
    requires Updatable(w.row, w.now)
    ensures var v := Desires(w, Updated(w.row, overrides, profiles, w.now));
            Inv(v) && Keeps(w, v) && Follows(w.row, v.row)
  {
    var v := Desires(w, Updated(w.row, overrides, profiles, w.now));
    assert forall k :: ClearSince(v, k) == ClearSince(w, k);
    assert Keeps(w, v);
    assert !Undercut(v.h) && !Astray(v.h) ==> DeadlineLawful(v, v.row);
    forall k | k in MeshOffered(w.h, w.setting.id) && PublishedEndpoint(v.row, k)
      ensures PublishedEndpoint(w.row, k)
    {
      OfferedServes(w.h, k, w.setting);
    }
  }

  lemma DeleteKept(w: World)
    requires Deletable(w.row)
    ensures var v := Desires(w, Deleted(w.row)); Inv(v) && Keeps(w, v) && Follows(w.row, v.row)
  {
    var v := Desires(w, Deleted(w.row));
    assert forall k :: ClearSince(v, k) == ClearSince(w, k);
    assert Keeps(w, v);
  }

  // ----- Route writes -----

  /** A snapshot built from the store now says of this composition what its row says. */
  lemma ReadSays(w: World)
    requires SnapshotOf(Active(w), w.now).Some?
    ensures var s := SnapshotOf(Active(w), w.now).value;
            MeshOf(s, w.setting.id) == MeshComponents(w.row) && IngressOf(s, w.setting.id) == IngressOpen(w.row, w.now)
  {
    var s := SnapshotOf(Active(w), w.now).value;
    if w.row.phase == Destroyed {
      SnapshotForgets(w.others, w.now, w.setting.id);
      EntriesMembers(s.mesh, w.setting.id);
      EntriesMembers(s.ingress, w.setting.id);
    } else {
      assert DistinctIDs(Active(w));
      assert Active(w)[|w.others|] == w.row;
      SnapshotSays(Active(w), w.now, w.row);
    }
  }

  function Reads(w: State, s: Snapshot): State {
    w.(inFlight := Some(Read(w.row, s, false)))
  }

  lemma ReadKept(w: World)
    requires w.inFlight.None? && SnapshotOf(Active(w), w.now).Some?
    ensures var v := Reads(w, SnapshotOf(Active(w), w.now).value); Inv(v) && Keeps(w, v)
  {
    ReadSays(w);
    ReadFaithful(w, SnapshotOf(Active(w), w.now).value);
  }

  lemma ReadFaithful(w: World, s: Snapshot)
    requires w.inFlight.None?
    requires MeshOf(s, w.setting.id) == MeshComponents(w.row) && IngressOf(s, w.setting.id) == IngressOpen(w.row, w.now)
    ensures Inv(Reads(w, s)) && Keeps(w, Reads(w, s))
  {
    var v := Reads(w, s);
    assert forall k :: ClearSince(v, k) == ClearSince(w, k);
    assert Keeps(w, v);
    LawfulKept(w, v, w.row);
    forall k | k in MeshOffered(w.h, w.setting.id) && PublishedEndpoint(w.row, k)
      ensures k in MeshComponents(w.row) || w.row.runtime.routesRemoved
    {
      OfferedServes(w.h, k, w.setting);
    }
  }

  lemma OfferPermitted(w: World, r: Read)
    requires ReadLawful(w, r) && !r.offered
    ensures Permitted(w.h, Offered(w.now, r.from, r.snapshot), w.setting)
  {
  }

  function Offers(w: State, r: Read): State {
    After(w, Offered(w.now, r.from, r.snapshot)).(inFlight := Some(r.(offered := true)))
  }

  lemma OfferKept(w: World)
    requires w.inFlight.Some? && !w.inFlight.value.offered
    ensures var v := Offers(w, w.inFlight.value); Inv(v) && Keeps(w, v)
  {
    var r := w.inFlight.value;
    var v := Offers(w, r);
    OfferPermitted(w, r);
    assert forall k :: k !in MeshOf(r.snapshot, w.setting.id) ==> ClearSince(v, k) == ClearSince(w, k);
    assert Keeps(w, v);
    LawfulKept(w, v, w.row);
  }

  function Accepts(w: State, r: Read): State {
    After(w, Accepted(w.now, r.snapshot)).(inFlight := None)
  }

  lemma AcceptKept(w: World)
    requires w.inFlight.Some? && w.inFlight.value.offered
    ensures var r, v, id := w.inFlight.value, Accepts(w, w.inFlight.value), w.setting.id;
            && Inv(v) && Keeps(w, v)
            && (forall k :: k !in MeshOf(r.snapshot, id) && k !in w.row.runtime.published ==> Gone(v, k))
            && (!IngressOf(r.snapshot, id) && w.row.deletionRequested ==> Closed(v))
            && (MeshOf(r.snapshot, id) == {} && !Meshed(w.row) && w.row.deletionRequested ==> Unmeshed(v))
  {
    var r := w.inFlight.value;
    var v := Accepts(w, r);
    assert forall k :: k !in MeshOf(r.snapshot, w.setting.id) && ClearSince(w, k).Some? ==> ClearSince(v, k) == ClearSince(w, k);
    assert Keeps(w, v);
    LawfulKept(w, v, w.row);
  }

  lemma ReleaseKept(w: World)
    ensures Inv(w.(inFlight := None)) && Keeps(w, w.(inFlight := None))
  {
    var v: State := w.(inFlight := None);
    assert forall k :: ClearSince(v, k) == ClearSince(w, k);
    LawfulKept(w, v, w.row);
  }

  // ----- The worker's save -----

  function Saves(w: State, c: Composition): State {
    w.(row := c, h := Then(w.h, Saved(c, w.now)))
  }

  /** A lawful observation of the current row keeps every deadline backed; only the selection may shut routes anew. */
  lemma SaveKept(w: World, c: Composition)
    requires Lawful(w, c) && Permitted(w.h, Saved(c, w.now), w.setting)
    requires Intent(c) == Intent(w.row) && Entering(w, w.row, c) && Reckoned(w, w.row, c)
    ensures Inv(Saves(w, c)) && Lawful(Saves(w, c), c)
    ensures Closed(w) ==> Closed(Saves(w, c))
  {
    var v := Saves(w, c);
    assert forall k :: ClearSince(v, k) == ClearSince(w, k);
    if w.inFlight.Some? {
      if !w.inFlight.value.offered {
        SaveCovered(w, c, w.inFlight.value);
      }
      assert ReadLawful(v, w.inFlight.value);
    }
  }

  lemma SaveCovered(w: World, c: Composition, r: Read)
    requires Covers(w, r) && c.plan == w.row.plan && Entering(w, w.row, c)
    ensures Covers(Saves(w, c), r)
  {
    forall k | k in MeshOffered(w.h, w.setting.id) && PublishedEndpoint(c, k)
      ensures PublishedEndpoint(w.row, k)
    {
      if k !in w.row.runtime.published {
        ClearIsNotOffered(w.h, k, w.setting);
        assert false;
      }
    }
  }
}
