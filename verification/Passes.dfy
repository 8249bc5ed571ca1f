/**
 Passes over one composition in which every call is answered as said: made of the rows, saves and syncs
 of `Reconciler`, in the order in which a pass makes them, and what each stage of them comes to.
 */
module Passes {
  import opened Domain
  import opened Ordering
  import opened RouteTable
  import opened History
  import opened World
  import opened Reconciler

  // ----- A pass, call by call -----

  /** The world and the copy that the pass holds. */
  datatype Pass = Pass(w: State, c: Composition)

  const UP := WorkloadObservation(true, false, None)

  /** The workload that the runtime reports for a component. */
  function RefFor(c: Composition, k: string): WorkloadRef {
    WorkloadRef(NamespaceForID(c.id), "", k, c.runtime.ownershipToken)
  }

  /** A pass is due, over no more components than it accepts. */
  predicate Ripe(w: State) {
    w.row.schedule.nextAttemptAt <= w.now && |w.row.overrides| <= MAX_OVERRIDES
  }

  function Begun(w: State): Pass
    requires Ripe(w)
  {
    Pass(w, StartedRow(Loaded(w.row)))
  }

  /** A component that is no job is asked for and reported ready. */
  function Up(p: Pass, k: string): Pass {
    Pass(After(p.w, WorkloadEnsured(k, None)), Reported(p.c, k, false, RefFor(p.c, k), UP))
  }

  function AllUp(p: Pass, names: seq<string>): Pass {
    if names == [] then p else Up(AllUp(p, names[..|names| - 1]), names[|names| - 1])
  }

  function Stored(p: Pass): Pass {
    Pass(Saves(p.w, p.c), p.c)
  }

  /** Every desired component is up. */
  ghost function Deployed(w: State): Pass
    requires Ripe(w)
  {
    AllUp(Begun(w), SortedKeys(w.row.overrides.Keys))
  }

  /** A sync under the lock that the provider accepts; nothing happens where there is no snapshot. */
  ghost function Synced(p: Pass): Pass {
    match SnapshotOf(Active(p.w), p.w.now)
    case None => p
    case Some(s) => p.(w := Accepts(Offers(Reads(p.w, s), Read(p.w.row, s, false)), Read(p.w.row, s, true)))
  }

  function Activated(p: Pass): Pass {
    if p.c.runtime.routingActive then p else Stored(p.(c := Activation(p.c)))
  }

  function Republished(p: Pass): Pass {
    Stored(p.(c := MoveRetired(p.c)))
  }

  /** The check through ingress passes. */
  function Passing(p: Pass): Pass {
    Pass(After(p.w, Verified(p.c.generation, true)), p.c.(pendingVerification := Some(EvidenceFor(p.c, true))))
  }

  /** The final write of a pass, with the time of the next attempt. */
  function Written(w: State, c: Composition, next: int): State {
    Saves(w, c.(schedule := c.schedule.(nextAttemptAt := next, observedGeneration := c.generation)))
  }

  /** A new selection is stored and synced. */
  ghost function Rerouted(p: Pass): Pass {
    if p.c.runtime.published == p.c.overrides then p else Synced(Republished(p))
  }

  /** A pass up to the point where it looks at what is to retire. */
  ghost function Served(w: State): Pass
    requires Ripe(w)
  {
    Passing(Rerouted(Synced(Activated(Deployed(w)))))
  }

  /** With nothing to retire it ends ready. */
  ghost function Finished(w: State, next: int): State
    requires Ripe(w)
  {
    var p := Served(w);
    Written(p.w, ReadyRow(p.c, next), next)
  }

  /** With something to retire and no deadline it sets one. */
  ghost function Delayed(w: State, until: int, next: int): State
    requires Ripe(w)
  {
    var p := Served(w);
    Written(p.w, WithDeadline(p.c, until), next)
  }

  /** A pass that cannot read the store for the route table ends failed. */
  ghost function Failing(w: State, next: int): State
    requires Ripe(w)
  {
    var p := Activated(Deployed(w));
    Written(p.w, FailedRow(p.c, "load aggregate routes", next), next)
  }

  /** A pass over a selection without endpoints, up to the first deletion: it is stored, and nothing is synced. */
  ghost function Detaching(w: State): Pass
    requires Ripe(w)
  {
    Republished(Deployed(w))
  }

  // ----- Rows that can be routed -----

  predicate Serving(c: Composition, k: string) {
    c.plan.Some? && ServesRequests(c.plan.value.profiles, k) && c.plan.value.profiles[k].id == k
  }

  /** Nothing in the row keeps it out of a snapshot. */
  predicate Routable(c: Composition) {
    && c.plan.Some? && c.plan.value.baseline.routing.previewSelector.None? && EndpointHost(c).Some?
    && forall k :: k in c.runtime.published ==> Serving(c, k) && ValidReference(c, k)
  }

  lemma {:induction false} RoutesOf(c: Composition, names: seq<string>)
    requires Routable(c) && forall k :: k in names ==> k in c.runtime.published
    ensures ComponentRoutes(c, c.plan.value, names).Some?
  {
    if names != [] {
      assert names == names[..|names| - 1] + [names[|names| - 1]];
      assert names[|names| - 1] in names;
      RoutesOf(c, names[..|names| - 1]);
    }
  }

  lemma SoloContribution(c: Composition, now: int)
    requires Routable(c)
    ensures Contribution(c, now).Some?
  {
    SortedKeysListing(c.runtime.published.Keys);
    RoutesOf(c, SortedKeys(c.runtime.published.Keys));
  }

  lemma SoloSnapshot(c: Composition, now: int)
    requires Routable(c)
    ensures SnapshotOf([c], now).Some? && MeshOf(SnapshotOf([c], now).value, c.id) == MeshComponents(c)
  {
    SoloContribution(c, now);
    var parts := Contributions([c], now);
    assert parts == [Contribution(c, now)] && parts[..0] == [];
    assert Joined(parts).Some?;
    assert SortBy([c], RowID) == [c];
    SnapshotSays([c], now, c);
  }

  // ----- What the stages of a pass leave alone -----

  /** Histories that say the same of routes and of selections without them. */
  ghost predicate SameTold(g: History, h: History, id: string) {
    Detached(g) == Detached(h) &&
    forall k ::
      && Routed(g, id, k) == Routed(h, id, k) && MeshClearSince(g, id, k) == MeshClearSince(h, id, k)
      && NeverRouted(g, id, k) == NeverRouted(h, id, k)
  }

  /** And have the same row. */
  ghost predicate Alike(g: History, h: History, id: string) {
    Row(g) == Row(h) && SameTold(g, h, id)
  }

  /** Only inventories and statuses of these components differ, and they have the workloads that were reported. */
  ghost predicate Raised(c: Composition, d: Composition, names: set<string>) {
    && d == c.(components := d.components, runtime := c.runtime.(workloads := d.runtime.workloads))
    && forall k :: WorkloadFor(d, k) == if k in names then RefFor(c, k) else WorkloadFor(c, k)
  }

  lemma UpRaises(p: Pass, k: string)
    ensures var q := Up(p, k);
            q.w == p.w.(h := q.w.h) && Alike(p.w.h, q.w.h, p.w.setting.id) && Raised(p.c, q.c, {k})
  {
    assert NamespaceForID(p.c.id) != "";
  }

  lemma RaisedMore(c: Composition, d: Composition, e: Composition, names: set<string>, k: string)
    requires Raised(c, d, names) && Raised(d, e, {k})
    ensures Raised(c, e, names + {k})
  {
  }

  lemma {:induction false} AllUpRaises(p: Pass, names: seq<string>)
    ensures var q := AllUp(p, names);
            && q.w == p.w.(h := q.w.h) && Alike(p.w.h, q.w.h, p.w.setting.id)
            && Raised(p.c, q.c, set k | k in names)
  {
    if names != [] {
      var front, last := names[..|names| - 1], names[|names| - 1];
      assert names == front + [last];
      AllUpRaises(p, front);
      UpRaises(AllUp(p, front), last);
      RaisedMore(p.c, AllUp(p, front).c, AllUp(p, names).c, (set k | k in front), last);
      assert (set k | k in names) == (set k | k in front) + {last};
    }
  }

  /**
   A moment at which only this composition exists, wanted, routable and not isolated, with nobody in
   the route lock and no observer of the baseline.
   */
  ghost predicate Alone(w: State) {
    && !w.setting.observer && !w.row.messageIsolation
    && w.others == [] && w.inFlight.None? && w.row.id == w.setting.id && Row(w.h) == w.row
    && Routable(w.row) && !w.row.deletionRequested && !w.row.runtime.routesRemoved && w.row.phase != Destroyed
  }

  /** The history after a sync of this snapshot. */
  function SyncOf(h: History, at: int, row: Composition, s: Snapshot): History {
    Then(Then(h, Offered(at, row, s)), Accepted(at, s))
  }

  lemma SyncSays(p: Pass) returns (s: Snapshot)
    requires Alone(p.w)
    ensures SnapshotOf(Active(p.w), p.w.now) == Some(s) && MeshOf(s, p.w.setting.id) == MeshComponents(p.w.row)
    ensures Synced(p) == p.(w := p.w.(h := SyncOf(p.w.h, p.w.now, p.w.row, s))) && Alone(Synced(p).w)
  {
    SoloSnapshot(p.w.row, p.w.now);
    assert Active(p.w) == [p.w.row];
    s := SnapshotOf([p.w.row], p.w.now).value;
  }

  lemma SyncRoutes(h: History, at: int, row: Composition, s: Snapshot, id: string)
    ensures var g := SyncOf(h, at, row, s);
            && Row(g) == Row(h)
            && (forall k :: Routed(g, id, k) <==> k in MeshOf(s, id))
            && (forall k :: k in MeshOf(s, id) ==> MeshClearSince(g, id, k).None?)
            && (forall k :: k !in MeshOf(s, id) && MeshClearSince(h, id, k).None? ==> MeshClearSince(g, id, k) == Some(at))
  {
  }

  // ----- What a pass that is answered comes to -----

  /** A pass is due over a selection that needs routes, and every desired component has an endpoint. */
  ghost predicate Visits(w: State) {
    Ripe(w) && !EndpointFree(w.row) && forall k :: k in w.row.overrides ==> Serving(w.row, k)
  }

  /** What a pass never changes about a wanted composition. */
  function Core(c: Composition): (string, bool, Option<Plan>, Selection, bool, int, Option<string>, string, bool) {
    (c.id, c.messageIsolation, c.plan, c.overrides, c.deletionRequested, c.expiresAt, EndpointHost(c),
     c.runtime.ownershipToken, c.runtime.routesRemoved)
  }

  predicate Carries(c: Composition, row: Composition) {
    Core(c) == Core(row) && c.phase != Destroyed
  }

  /** The desired workloads are up in the copy, and those published before are still where they were. */
  predicate Equipped(c: Composition) {
    Routable(c) && forall k :: k in c.overrides ==> Serving(c, k) && ValidReference(c, k)
  }

  lemma Raises(w: State) returns (p: Pass)
    requires Alone(w) && Visits(w)
    ensures p == Deployed(w) && p.w == w.(h := p.w.h) && Alike(w.h, p.w.h, w.setting.id)
    ensures Carries(p.c, w.row) && Equipped(p.c)
    ensures p.c.runtime == w.row.runtime.(workloads := p.c.runtime.workloads)
  {
    p := Deployed(w);
    SortedKeysListing(w.row.overrides.Keys);
    AllUpRaises(Begun(w), SortedKeys(w.row.overrides.Keys));
    assert Carries(Begun(w).c, w.row);
    assert forall k :: WorkloadFor(Begun(w).c, k) == WorkloadFor(w.row, k);
  }

  lemma EquippedKept(c: Composition)
    requires Equipped(c)
    ensures Equipped(Activation(c)) && Core(Activation(c)) == Core(c)
  {
  }

  /** Storing the intention to route changes nothing else. */
  lemma ActivatedAlone(q: Pass)
    requires Alone(q.w) && Equipped(q.c) && Carries(q.c, q.w.row) && q.c.runtime.published == q.w.row.runtime.published
    requires q.c.runtime.routingActive ==> q.w.row.runtime.routingActive
    ensures var a := Activated(q);
            && Carries(a.c, q.c) && Equipped(a.c) && a.c.runtime == q.c.runtime.(routingActive := true)
            && Alone(a.w) && a.w.now == q.w.now && a.w.setting == q.w.setting && Carries(a.w.row, q.w.row)
            && a.w.row.runtime.published == q.w.row.runtime.published && a.w.row.runtime.routingActive
            && forall k :: Routed(a.w.h, q.w.setting.id, k) == Routed(q.w.h, q.w.setting.id, k) && ClearSince(a.w, k) == ClearSince(q.w, k)
  {
    EquippedKept(q.c);
  }

  /** The intention to route is in the copy and in the stored row. */
  lemma Intends(w: State) returns (a: Pass)
    requires Alone(w) && Visits(w)
    ensures a == Activated(Deployed(w)) && Carries(a.c, w.row) && Equipped(a.c)
    ensures a.c.runtime == w.row.runtime.(workloads := a.c.runtime.workloads, routingActive := true)
    ensures Alone(a.w) && a.w.now == w.now && a.w.setting == w.setting && Carries(a.w.row, w.row)
    ensures a.w.row.runtime.published == w.row.runtime.published && a.w.row.runtime.routingActive
    ensures forall k :: Routed(a.w.h, w.setting.id, k) == Routed(w.h, w.setting.id, k) && ClearSince(a.w, k) == ClearSince(w, k)
  {
    var q := Raises(w);
    ActivatedAlone(q);
    a := Activated(q);
  }

  /** Afterwards everything published before is routed. */
  lemma Activates(w: State) returns (p: Pass)
    requires Alone(w) && Visits(w)
    ensures p == Synced(Activated(Deployed(w)))
    ensures Carries(p.c, w.row) && Equipped(p.c)
    ensures p.c.runtime == w.row.runtime.(workloads := p.c.runtime.workloads, routingActive := true)
    ensures Alone(p.w) && p.w.now == w.now && p.w.setting == w.setting && p.w.row.runtime.published == w.row.runtime.published
    ensures Carries(p.w.row, w.row)
    ensures forall k :: k in w.row.runtime.published ==> Routed(p.w.h, w.setting.id, k) && ClearSince(p.w, k).None?
    ensures forall k :: Routed(p.w.h, w.setting.id, k) ==> k in w.row.runtime.published
  {
    var a := Intends(w);
    assert forall k :: k in MeshComponents(a.w.row) <==> k in w.row.runtime.published;
    var s := SyncSays(a);
    SyncRoutes(a.w.h, a.w.now, a.w.row, s, w.setting.id);
    p := Synced(a);
  }

  /** What left the selection joins what was retiring already. */
  ghost predicate Joins(c: Composition, row: Composition) {
    forall k :: k in c.runtime.retiring <==> k in row.runtime.retiring || (k in row.runtime.published && k !in row.overrides)
  }

  lemma Moves(c: Composition)
    requires Equipped(c)
    ensures var d := MoveRetired(c);
            && Carries(d, c) == (c.phase != Destroyed) && Equipped(d) && d.runtime.published == c.overrides
            && Joins(d, c) && d.runtime.routingActive == c.runtime.routingActive && d.generation == c.generation
            && d.runtime.retirementDrainUntil == c.runtime.retirementDrainUntil
  {
    assert NamespaceForID(c.id) != "";
  }

  /** A copy under way that is to be routed. */
  ghost predicate Routing(p: Pass) {
    && Alone(p.w) && Equipped(p.c) && p.c.id == p.w.row.id && p.c.runtime.routingActive
    && !p.c.messageIsolation && !p.c.deletionRequested && !p.c.runtime.routesRemoved && p.c.phase != Destroyed
  }

  /** The new selection is stored before it is synced. */
  lemma Stores(p: Pass) returns (r: Pass)
    requires Routing(p)
    ensures r == Republished(p) && r.c == MoveRetired(p.c) && r.w.row == r.c && Alone(r.w)
    ensures r.w.now == p.w.now && r.w.setting == p.w.setting && r.c.runtime.published == p.c.overrides
    ensures forall k :: ClearSince(r.w, k) == ClearSince(p.w, k)
  {
    r := Republished(p);
    Moves(p.c);
    assert Alone(r.w);
    assert forall k :: ClearSince(r.w, k) == ClearSince(p.w, k);
  }

  /** Storing the new selection and syncing it leaves exactly the new selection routed, from now on. */
  lemma Republishes(p: Pass) returns (q: Pass)
    requires Routing(p)
    ensures q == Synced(Republished(p)) && q.c == MoveRetired(p.c)
    ensures Alone(q.w) && q.w.row == q.c && q.w.now == p.w.now && q.w.setting == p.w.setting
    ensures forall k :: Routed(q.w.h, p.w.setting.id, k) <==> k in p.c.overrides
    ensures forall k :: k !in p.c.overrides && ClearSince(p.w, k).None? ==> ClearSince(q.w, k) == Some(p.w.now)
  {
    var r := Stores(p);
    Moves(p.c);
    assert forall k :: k in MeshComponents(r.w.row) <==> k in p.c.overrides;
    var s := SyncSays(r);
    SyncRoutes(r.w.h, r.w.now, r.w.row, s, p.w.setting.id);
    q := Synced(r);
  }

  /**
   What a pass has reached before it looks at what is to retire: the stored selection is the desired
   one and is exactly what is routed; what left it has been out of the provider since just now, and
   retires under whatever deadline there was.
   */
  ghost predicate InForce(w: State, p: Pass) {
    && Alone(p.w) && p.w.now == w.now && p.w.setting == w.setting && p.w.row.runtime.published == w.row.overrides
    && Carries(p.w.row, w.row) && Carries(p.c, w.row) && Equipped(p.c) && Joins(p.c, w.row)
    && p.c.runtime.published == w.row.overrides && p.c.runtime.routingActive
    && p.c.runtime.retirementDrainUntil == w.row.runtime.retirementDrainUntil
    && (forall k :: Routed(p.w.h, w.setting.id, k) <==> k in w.row.overrides)
    && (forall k :: k in w.row.runtime.published && k !in w.row.overrides ==> ClearSince(p.w, k) == Some(w.now))
  }

  lemma ServesMoved(w: State, a: Pass) returns (r: Pass)
    requires Alone(w) && Visits(w) && a == Synced(Activated(Deployed(w)))
    requires a.c.runtime.published != a.c.overrides
    ensures r == Synced(Republished(a)) && InForce(w, r)
  {
    var b := Activates(w);
    Moves(a.c);
    r := Republishes(a);
  }

  lemma ServesSame(w: State, a: Pass)
    requires Alone(w) && Visits(w) && a == Synced(Activated(Deployed(w)))
    requires a.c.runtime.published == a.c.overrides
    ensures InForce(w, a)
  {
    var b := Activates(w);
  }

  lemma PassingKeeps(w: State, r: Pass)
    requires InForce(w, r)
    ensures InForce(w, Passing(r))
  {
    var p := Passing(r);
    assert forall k :: ClearSince(p.w, k) == ClearSince(r.w, k) && Routed(p.w.h, w.setting.id, k) == Routed(r.w.h, w.setting.id, k);
  }

  lemma Serves(w: State) returns (p: Pass)
    requires Alone(w) && Visits(w)
    ensures p == Served(w) && InForce(w, p)
  {
    var r := Synced(Activated(Deployed(w)));
    if r.c.runtime.published != r.c.overrides {
      r := ServesMoved(w, r);
    } else {
      ServesSame(w, r);
    }
    PassingKeeps(w, r);
    p := Passing(r);
  }

  // ----- One component through a pass -----

  lemma ClearThroughSync(h: History, at: int, row: Composition, s: Snapshot, id: string, k: string)
    requires k !in MeshOf(s, id) && MeshClearSince(h, id, k).Some?
    ensures MeshClearSince(SyncOf(h, at, row, s), id, k) == MeshClearSince(h, id, k)
  {
  }

  lemma SyncKeepsClear(p: Pass, k: string)
    requires Alone(p.w) && k !in p.w.row.runtime.published && ClearSince(p.w, k).Some?
    ensures ClearSince(Synced(p).w, k) == ClearSince(p.w, k)
  {
    var s := SyncSays(p);
    ClearThroughSync(p.w.h, p.w.now, p.w.row, s, p.w.setting.id, k);
  }

  lemma ReroutedClear(p: Pass, k: string)
    requires Routing(p) && k !in p.c.overrides && ClearSince(p.w, k).Some?
    ensures ClearSince(Rerouted(p).w, k) == ClearSince(p.w, k)
  {
    if p.c.runtime.published != p.c.overrides {
      var r := Stores(p);
      SyncKeepsClear(r, k);
    }
  }

  /** What is neither published nor desired stays out of the provider as long as it has been. */
  lemma ServesClear(w: State, k: string)
    requires Alone(w) && Visits(w) && k !in w.row.runtime.published && k !in w.row.overrides && ClearSince(w, k).Some?
    ensures ClearSince(Served(w).w, k) == ClearSince(w, k)
  {
    var a := Intends(w);
    SyncKeepsClear(a, k);
    var p := Activates(w);
    ReroutedClear(p, k);
  }

  lemma {:induction false} RoutedOnce(h: History, id: string, k: string)
    requires Routed(h, id, k)
    ensures !NeverRouted(h, id, k)
  {
    if !h.event.Accepted? {
      RoutedOnce(h.past, id, k);
    }
  }

  lemma SyncRemembers(p: Pass, k: string)
    requires Alone(p.w) && !NeverRouted(p.w.h, p.w.setting.id, k)
    ensures !NeverRouted(Synced(p).w.h, p.w.setting.id, k)
  {
    var s := SyncSays(p);
  }

  lemma ReroutedRemembers(p: Pass, k: string)
    requires Routing(p) && !NeverRouted(p.w.h, p.w.setting.id, k)
    ensures !NeverRouted(Rerouted(p).w.h, p.w.setting.id, k)
  {
    if p.c.runtime.published != p.c.overrides {
      var r := Stores(p);
      SyncRemembers(r, k);
    }
  }

  /** Everything published is routed on the way. */
  lemma ServesRouted(w: State, k: string)
    requires Alone(w) && Visits(w) && k in w.row.runtime.published
    ensures !NeverRouted(Served(w).w.h, w.setting.id, k)
  {
    var p := Activates(w);
    RoutedOnce(p.w.h, w.setting.id, k);
    ReroutedRemembers(p, k);
  }

  /** The workloads of the desired components are asked for, and the others stay where they were. */
  lemma Deploys(w: State) returns (d: Pass)
    requires Ripe(w)
    ensures d == Deployed(w) && d.w == w.(h := d.w.h) && SameTold(w.h, d.w.h, w.setting.id)
    ensures d.c.plan == w.row.plan && d.c.overrides == w.row.overrides
    ensures d.c.runtime == w.row.runtime.(workloads := d.c.runtime.workloads)
    ensures forall k :: k !in w.row.overrides ==> WorkloadFor(d.c, k) == WorkloadFor(w.row, k)
  {
    SortedKeysListing(w.row.overrides.Keys);
    AllUpRaises(Begun(w), SortedKeys(w.row.overrides.Keys));
    assert forall k :: WorkloadFor(Begun(w).c, k) == WorkloadFor(w.row, k);
    d := Deployed(w);
  }

  /** A pass over a selection without endpoints has stored it, told nobody, and has the rest to delete. */
  lemma Detaches(w: State) returns (p: Pass)
    requires Ripe(w) && forall k :: k in w.row.runtime.published ==> WorkloadFor(w.row, k).namespace != ""
    ensures p == Detaching(w) && p.w.row == p.c && p.w.now == w.now && p.w.setting == w.setting
    ensures p.c.runtime.published == w.row.overrides && Joins(p.c, w.row) && p.c.plan == w.row.plan && p.c.overrides == w.row.overrides
    ensures SameTold(w.h, p.w.h, w.setting.id)
  {
    var d := Deploys(w);
    p := Republished(d);
  }
}
