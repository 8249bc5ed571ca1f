/**
 Where the retirement promise ends. A retired workload outlives its route by a full drain unless an
 update undercuts a retirement, or a selection without endpoints is accepted with something at stake
 (`History.WorkloadDeletedAfterDrain`). For both, what decides whether the next pass keeps the promise,
 and runs from the creation of a composition in which it does not.
 */
module Retirement {
  import opened Domain
  import opened RouteTable
  import opened History
  import opened World
  import opened Reconciler
  import opened Passes
  import opened Runs
  import opened SafePasses

  // ----- Undercutting a retirement -----

  /** What leaves the selection under a deadline that is already set retires under that deadline. */
  lemma DeadlineShared(w: State, k: string) returns (p: Pass)
    requires Alone(w) && Visits(w) && k in w.row.runtime.published && k !in w.row.overrides
    ensures p == Served(w) && p.w.now == w.now && p.w.setting == w.setting && k in p.c.runtime.retiring
    ensures p.c.runtime.retirementDrainUntil == w.row.runtime.retirementDrainUntil
    ensures ClearSince(p.w, k) == Some(w.now)
  {
    p := Serves(w);
  }

  /**
   Where a deadline ends less than a drain from now, the next pass has a routed component that left the
   selection retire under it, so that it may be deleted before its drain is over.
   */
  lemma DroppedWithoutDrain(w: State, k: string, at: int) returns (p: Pass)
    requires Alone(w) && Visits(w) && k in w.row.runtime.published && k !in w.row.overrides
    requires Routed(w.h, w.setting.id, k)
    requires w.row.runtime.retirementDrainUntil.Some?
    requires w.row.runtime.retirementDrainUntil.value <= at < w.now + w.setting.drain
    ensures p == Served(w) && p.w.now == w.now && p.w.setting == w.setting && k in p.c.runtime.retiring
    ensures p.c.runtime.retirementDrainUntil.Some? && p.c.runtime.retirementDrainUntil.value <= at
    ensures !Elapsed(ClearSince(p.w, k), w.setting.drain, at)
  {
    p := DeadlineShared(w, k);
  }

  /** A retiring component that is desired again, after the deadline, may be deleted while it is published and routed. */
  lemma ReaddedIsDeleted(w: State, k: string) returns (p: Pass)
    requires Alone(w) && Visits(w) && k in w.row.runtime.retiring && k in w.row.overrides
    requires w.row.runtime.retirementDrainUntil.Some? && w.row.runtime.retirementDrainUntil.value <= w.now
    ensures p == Served(w) && p.w.now == w.now && p.w.setting == w.setting && k in p.c.runtime.retiring
    ensures p.c.runtime.retirementDrainUntil == w.row.runtime.retirementDrainUntil
    ensures k in p.w.row.runtime.published && Routed(p.w.h, w.setting.id, k)
  {
    p := Serves(w);
  }

  /** This profile is one of the component, which serves no requests and is no job. */
  predicate Queued(plan: Plan, k: string) {
    k in plan.profiles && plan.profiles[k].id == k && plan.profiles[k].Kind() == Worker
  }

  /** A small enough selection that needs no routes, of workers only. */
  predicate Queueable(plan: Plan, overrides: Selection) {
    |overrides| <= MAX_OVERRIDES && plan.baseline.verificationKind == "none" && forall n :: n in overrides ==> Queued(plan, n)
  }

  /** Without endpoints in the selection, the next pass has what left it to delete while the provider routes there. */
  lemma UnverifiedStillRouted(w: State, k: string) returns (p: Pass)
    requires Alone(w) && Ripe(w) && Queueable(w.row.plan.value, w.row.overrides)
    requires k in w.row.runtime.published && k !in w.row.overrides && Routed(w.h, w.setting.id, k)
    ensures p == Detaching(w) && p.w.now == w.now && p.w.setting == w.setting && p.w.row == p.c && EndpointFree(p.c)
    ensures k in p.c.runtime.retiring && k !in p.w.row.runtime.published && Routed(p.w.h, w.setting.id, k)
  {
    assert NamespaceForID(w.row.id) != "";
    p := Detaches(w);
  }

  /** A small enough selection that needs routes, each component of which has its own profile and an endpoint. */
  predicate Servable(plan: Plan, overrides: Selection) {
    |overrides| <= MAX_OVERRIDES && NeedsRoutes(plan, overrides.Keys) &&
    forall n :: n in overrides ==> ServesRequests(plan.profiles, n) && plan.profiles[n].id == n
  }

  /**
   The pass has k to delete at this moment, the history that goes on with the deletion is one of a run,
   and yet k has not outlived its route.
   */
  ghost predicate DeletedEarly(p: Pass, k: string) {
    && k in p.c.runtime.retiring
    && (EndpointFree(p.c) || (p.c.runtime.retirementDrainUntil.Some? && p.c.runtime.retirementDrainUntil.value <= p.w.now))
    && Safe(Then(p.w.h, WorkloadDeleted(k, p.w.now)), p.w.setting)
    && !Outlives(p.w.h, k, p.w.now, p.w.setting)
  }

  /** The moment t after an accepted update, with nothing done in between. */
  function AfterUpdate(w: State, overrides: Selection, profiles: map<string, Component>, t: int): State {
    Desires(w, Updated(w.row, overrides, profiles, w.now)).(now := t)
  }

  lemma UpdatedRoutable(c: Composition, overrides: Selection, profiles: map<string, Component>, now: int)
    requires Routable(c)
    ensures Routable(Updated(c, overrides, profiles, now)) && Updated(c, overrides, profiles, now).runtime == c.runtime
  {
    var d := Updated(c, overrides, profiles, now);
    assert forall k :: ValidReference(d, k) == ValidReference(c, k);
    assert forall k :: Serving(c, k) ==> Serving(d, k);
  }

  lemma UpdateAlone(w: State, overrides: Selection, profiles: map<string, Component>, t: int) returns (v: State)
    requires Alone(w) && 0 <= t && Servable(Extended(w.row.plan.value, profiles), overrides)
    ensures v == AfterUpdate(w, overrides, profiles, t) && Alone(v) && Visits(v)
    ensures v.row.overrides == overrides && v.row.runtime == w.row.runtime && v.now == t && v.setting == w.setting
    ensures forall k :: ClearSince(v, k) == ClearSince(w, k)
  {
    v := AfterUpdate(w, overrides, profiles, t);
    UpdatedRoutable(w.row, overrides, profiles, w.now);
    assert forall k :: ClearSince(v, k) == ClearSince(w, k);
  }

  /** Neither kind of undercutting: what retires after the update retired before it, and has been out for its drain. */
  lemma StillOutlives(w: State, v: State, p: Pass, k: string, t: int)
    requires Alone(v) && Visits(v) && InForce(v, p) && p == Served(v) && v.setting == w.setting
    requires v.row.runtime == w.row.runtime && ClearSince(v, k) == ClearSince(w, k) && !Undercuts(w.row, v.row.overrides)
    requires DeadlineLawful(w, w.row) && w.row.runtime.retirementDrainUntil.Some? && w.row.runtime.retirementDrainUntil.value <= t
    requires k in p.c.runtime.retiring
    ensures Outlives(p.w.h, k, t, p.w.setting)
  {
    assert k in w.row.runtime.retiring;
    ServesClear(v, k);
  }

  lemma RetakenDoesNot(v: State, p: Pass, k: string, t: int)
    requires InForce(v, p) && k in v.row.runtime.retiring && k in v.row.overrides
    ensures k in p.c.runtime.retiring && !Outlives(p.w.h, k, t, p.w.setting)
  {
  }

  lemma DroppedDoesNot(v: State, p: Pass, k: string)
    requires Alone(v) && Visits(v) && InForce(v, p) && p == Served(v) && 0 < v.setting.drain
    requires k in v.row.runtime.published && k !in v.row.overrides
    ensures k in p.c.runtime.retiring && !Outlives(p.w.h, k, v.now, p.w.setting)
  {
    ServesRouted(v, k);
  }

  lemma UndercutShows(w: State, v: State, p: Pass) returns (k: string)
    requires Alone(v) && Visits(v) && InForce(v, p) && p == Served(v) && 0 < v.setting.drain
    requires v.row.runtime == w.row.runtime && Undercuts(w.row, v.row.overrides)
    ensures k in p.c.runtime.retiring && !Outlives(p.w.h, k, v.now, p.w.setting)
  {
    if i :| i in w.row.runtime.retiring && i in v.row.overrides {
      k := i;
      RetakenDoesNot(v, p, k, v.now);
    } else {
      k :| k in w.row.runtime.published && k !in v.row.overrides;
      DroppedDoesNot(v, p, k);
    }
  }

  /**
   The exact condition. From any such moment with a deadline that the history backs, an update is
   accepted, and the deadline has passed when the next pass runs: everything the pass then has to
   delete has outlived its route by a full drain if and only if the update undercut no retirement.
   */
  lemma DrainKeptExactly(w: State, overrides: Selection, profiles: map<string, Component>, t: int) returns (v: State, p: Pass)
    requires Alone(w) && Updatable(w.row, w.now) && w.now <= t && 0 <= t && 0 < w.setting.drain
    requires Servable(Extended(w.row.plan.value, profiles), overrides)
    requires Apart(w.row) && DeadlineLawful(w, w.row)
    requires w.row.runtime.retirementDrainUntil.Some? && w.row.runtime.retirementDrainUntil.value <= t
    ensures v == AfterUpdate(w, overrides, profiles, t) && Alone(v) && Visits(v) && p == Served(v)
    ensures p.c.runtime.retirementDrainUntil == w.row.runtime.retirementDrainUntil
    ensures (forall k :: k in p.c.runtime.retiring ==> Outlives(p.w.h, k, t, p.w.setting)) <==> !Undercuts(w.row, overrides)
  {
    v := UpdateAlone(w, overrides, profiles, t);
    p := Serves(v);
    if Undercuts(w.row, overrides) {
      var k := UndercutShows(w, v, p);
    } else {
      forall k | k in p.c.runtime.retiring
        ensures Outlives(p.w.h, k, t, p.w.setting)
      {
        StillOutlives(w, v, p, k, t);
      }
    }
  }

  lemma UpdateDetaches(w: State, overrides: Selection, profiles: map<string, Component>, t: int) returns (v: State)
    requires w.row.plan.Some? && 0 <= t && Queueable(Extended(w.row.plan.value, profiles), overrides) && !w.row.deletionRequested
    ensures v == AfterUpdate(w, overrides, profiles, t) && Ripe(v) && EndpointFree(v.row) && Detached(v.h)
    ensures v.row.overrides == overrides && v.row.runtime == w.row.runtime && v.now == t && v.setting == w.setting
    ensures forall k :: NeverRouted(v.h, w.setting.id, k) == NeverRouted(w.h, w.setting.id, k) && ClearSince(v, k) == ClearSince(w, k)
  {
    v := AfterUpdate(w, overrides, profiles, t);
  }

  /** At t nothing routes the component, and nothing ever did, or not for a full drain. */
  ghost predicate Unrouted(w: State, k: string, t: int) {
    NeverRouted(w.h, w.setting.id, k) || Elapsed(ClearSince(w, k), w.setting.drain, t)
  }

  /** What retires in such a pass, and whether it has outlived its route. */
  lemma DetachedOutlives(w: State, v: State, p: Pass, k: string)
    requires SameTold(v.h, p.w.h, v.setting.id) && Row(p.w.h) == p.w.row && p.w.row.runtime.published == v.row.overrides
    requires Detached(v.h) && v.setting == w.setting && p.w.setting == w.setting
    requires NeverRouted(v.h, w.setting.id, k) == NeverRouted(w.h, w.setting.id, k) && ClearSince(v, k) == ClearSince(w, k)
    ensures Outlives(p.w.h, k, v.now, p.w.setting) <==> k !in v.row.overrides && Unrouted(w, k, v.now)
  {
  }

  lemma DetachedPass(w: State, overrides: Selection, profiles: map<string, Component>, t: int) returns (v: State, p: Pass)
    requires w.row.plan.Some? && !w.row.deletionRequested && 0 <= t && Queueable(Extended(w.row.plan.value, profiles), overrides)
    requires forall k :: k in w.row.runtime.published ==> WorkloadFor(w.row, k).namespace != ""
    ensures v == AfterUpdate(w, overrides, profiles, t) && Ripe(v) && p == Detaching(v)
    ensures forall k :: k in p.c.runtime.retiring <==> k in w.row.runtime.retiring || (k in w.row.runtime.published && k !in overrides)
    ensures forall k :: Outlives(p.w.h, k, t, p.w.setting) <==> k !in overrides && Unrouted(w, k, t)
  {
    v := UpdateDetaches(w, overrides, profiles, t);
    p := Detaches(v);
    forall k
      ensures Outlives(p.w.h, k, t, p.w.setting) <==> k !in overrides && Unrouted(w, k, t)
    {
      DetachedOutlives(w, v, p, k);
    }
  }

  /**
   The exact condition where the new selection needs no routes, and the next pass deletes at once:
   everything it has to delete has outlived its route if and only if the update takes no retiring
   component back, and neither drops nor finds retiring a component that was ever routed and has not
   been out for a full drain.
   */
  lemma DetachKeptExactly(w: State, overrides: Selection, profiles: map<string, Component>, t: int) returns (v: State, p: Pass)
    requires Updatable(w.row, w.now) && w.row.plan.Some? && w.now <= t && 0 <= t
    requires Queueable(Extended(w.row.plan.value, profiles), overrides)
    requires forall k :: k in w.row.runtime.published ==> WorkloadFor(w.row, k).namespace != ""
    ensures v == AfterUpdate(w, overrides, profiles, t) && Ripe(v) && p == Detaching(v)
    ensures (forall k :: k in p.c.runtime.retiring ==> Outlives(p.w.h, k, t, p.w.setting)) <==>
              (forall k :: k in w.row.runtime.retiring ==> k !in overrides && Unrouted(w, k, t)) &&
              (forall k :: k in w.row.runtime.published && k !in overrides ==> Unrouted(w, k, t))
  {
    v, p := DetachedPass(w, overrides, profiles, t);
  }

  /** In every run, where an update leaves nothing at stake, nothing that retires or leaves with it was ever routed. */
  lemma NothingAtStake(w: World, row: Composition, k: string)
    requires PlanKept(w.row, row) && row.runtime == w.row.runtime && !AtStake(row)
    requires k in w.row.runtime.retiring || (k in w.row.runtime.published && k !in row.overrides)
    ensures NeverRouted(w.h, w.setting.id, k)
  {
    assert Silent(row.plan, k);
    SilentNeverRouted(w.h, row, k, w.setting);
  }

  // ----- From the creation of a composition -----

  /** Passes over a shrunk selection, up to when its deadline has passed and an update is accepted again. */
  function Shrinking(kept: Selection, until: int): seq<Move> {
    [Complete(1)] + [Update(kept, map[])] + [Delay(until, 1)] + [Tick(1)] + [Fail(2)] + [Tick(until)]
  }

  /** A part of the desired selection, with whatever images, that still needs routes. */
  predicate Part(c: Composition, kept: Selection) {
    kept.Keys <= c.overrides.Keys && |kept| <= MAX_OVERRIDES && c.plan.Some? && NeedsRoutes(c.plan.value, kept.Keys)
  }

  /** A composition that was just created can be served. */
  ghost predicate Newborn(first: State) {
    Inv(first) && Moment(first, {}, {}, None) && Visits(first) && first.now == 0 && first.setting.drain < first.row.expiresAt
  }

  lemma NothingAdded(plan: Plan)
    ensures Extended(plan, map[]) == plan
  {
    assert map[] + plan.profiles == plan.profiles;
  }

  /** The pass stores a row whose endpoints are all ready, where it was allocated one. */
  lemma StoresReady(w: State, next: int) returns (p: History)
    requires Alone(w) && Visits(w)
    ensures var row := Finished(w, next).row;
            && Finished(w, next).h == Then(p, Saved(row, w.now))
            && row.phase == Ready && "public" in row.endpoints && row.endpoints["public"].host.Some?
            && forall k :: k in row.endpoints ==> row.endpoints[k].ready
  {
    var q := Serves(w);
    p := q.w.h;
  }

  /** From the creation of any composition that can be served, the first pass makes it ready, and that run is a safe one. */
  lemma GoesLive(first: State) returns (w: State, p: History)
    requires Newborn(first)
    ensures Leads(first, [Complete(1)]) == Some(w) && Safe(w.h, w.setting)
    ensures w.h == Then(p, Saved(w.row, first.now)) && HasReadyEndpoint(w.row)
    ensures w.row.phase == Ready && w.row.overrides == w.row.runtime.published == first.row.overrides
    ensures forall k :: k in w.row.endpoints ==> w.row.endpoints[k].ready
  {
    w := Completes(first, [], first, {}, 1);
    assert [] + [Complete(1)] == [Complete(1)];
    LeadsKept(first, [Complete(1)]);
    LeadsOn(first, [], Complete(1));
    p := StoresReady(first, 1);
  }

  /** The first selection goes live, and then shrinks. */
  lemma Shrinks(first: State, kept: Selection) returns (w: State)
    requires Newborn(first) && Part(first.row, kept)
    ensures Leads(first, [Complete(1)] + [Update(kept, map[])]) == Some(w)
    ensures Moment(w, first.row.overrides.Keys, {}, None) && Visits(w)
    ensures w.row.overrides == kept && w.row.plan == first.row.plan && w.row.expiresAt == first.row.expiresAt
    ensures w.now == 0 && w.setting == first.setting
  {
    var live := Completes(first, [], first, {}, 1);
    assert [] + [Complete(1)] == [Complete(1)];
    w := Turns(first, [Complete(1)], live, first.row.overrides.Keys, {}, None, kept, map[]);
    NothingAdded(first.row.plan.value);
  }

  /** What left the selection retires, a pass fails in the meantime, and then the deadline is over. */
  lemma Expires(first: State, kept: Selection, k: string, until: int) returns (w: State)
    requires Newborn(first) && Part(first.row, kept) && k in first.row.overrides && k !in kept
    requires until == first.setting.drain && 0 < until
    ensures Leads(first, Shrinking(kept, until)) == Some(w)
    ensures Moment(w, kept.Keys, first.row.overrides.Keys - kept.Keys, Some(until)) && Updatable(w.row, w.now)
    ensures w.now == until && w.setting == first.setting && w.row.plan == first.row.plan
    ensures w.row.overrides == kept && forall i :: i in first.row.overrides && i !in kept ==> ClearSince(w, i) == Some(0)
  {
    var shrunk := Shrinks(first, kept);
    var moves := [Complete(1)] + [Update(kept, map[])];
    var delayed := Delays(first, moves, shrunk, first.row.overrides.Keys, k, until, 1);
    moves := moves + [Delay(until, 1)];
    var retiring := first.row.overrides.Keys - kept.Keys;
    var waiting := Waits(first, moves, delayed, kept.Keys, retiring, Some(until), 1);
    moves := moves + [Tick(1)];
    var failed := Fails(first, moves, waiting, kept.Keys, retiring, Some(until), 2);
    moves := moves + [Fail(2)];
    w := Waits(first, moves, failed, kept.Keys, retiring, Some(until), until);
  }

  /** That is a moment of which `DrainKeptExactly` speaks. */
  lemma ExpiresBacked(first: State, kept: Selection, k: string, until: int) returns (w: State)
    requires Newborn(first) && Part(first.row, kept) && k in first.row.overrides && k !in kept
    requires until == first.setting.drain && 0 < until
    ensures Leads(first, Shrinking(kept, until)) == Some(w) && Alone(w) && Updatable(w.row, w.now) && w.now == until
    ensures Apart(w.row) && DeadlineLawful(w, w.row) && w.row.runtime.retirementDrainUntil == Some(until)
  {
    w := Expires(first, kept, k, until);
    assert k in w.row.runtime.retiring;
  }

  /** Then an update desires these, and the next pass is due. */
  lemma Redirects(first: State, kept: Selection, gone: string, until: int, overrides: Selection,
                  profiles: map<string, Component>) returns (w: State)
    requires Newborn(first) && Part(first.row, kept) && gone in first.row.overrides && gone !in kept
    requires until == first.setting.drain && 0 < until
    requires Servable(Extended(first.row.plan.value, profiles), overrides)
    ensures Leads(first, Shrinking(kept, until) + [Update(overrides, profiles)]) == Some(w)
    ensures Moment(w, kept.Keys, first.row.overrides.Keys - kept.Keys, Some(until)) && Visits(w)
    ensures w.row.overrides == overrides && w.now == until && w.setting == first.setting
  {
    var expired := Expires(first, kept, gone, until);
    var retiring := first.row.overrides.Keys - kept.Keys;
    w := Turns(first, Shrinking(kept, until), expired, kept.Keys, retiring, Some(until), overrides, profiles);
  }

  lemma RedirectedSafe(first: State, moves: seq<Move>, w: State) returns (p: Pass)
    requires Inv(first) && Leads(first, moves) == Some(w) && Alone(w) && Visits(w)
    ensures p == Served(w) && Stands(p) && InForce(w, p)
  {
    LeadsKept(first, moves);
    p := ServedSettled(w);
    var q := Serves(w);
  }

  /**
   From the creation of any composition: the selection shrinks to `kept`, and once the deadline of what
   left it has passed, an update drops k as well. The next pass deletes k, which was routed until just
   now, in the moment its routes go.
   */
  lemma DropRun(first: State, kept: Selection, gone: string, until: int, overrides: Selection,
                profiles: map<string, Component>, k: string) returns (w: State, p: Pass)
    requires Newborn(first) && Part(first.row, kept) && gone in first.row.overrides && gone !in kept
    requires until == first.setting.drain && 0 < until
    requires Servable(Extended(first.row.plan.value, profiles), overrides) && k in kept && k !in overrides
    ensures Leads(first, Shrinking(kept, until) + [Update(overrides, profiles)]) == Some(w)
    ensures Alone(w) && Visits(w) && p == Served(w) && Routed(w.h, w.setting.id, k)
    ensures ClearSince(p.w, k) == Some(p.w.now) && DeletedEarly(p, k)
  {
    w := Redirects(first, kept, gone, until, overrides, profiles);
    p := RedirectedSafe(first, Shrinking(kept, until) + [Update(overrides, profiles)], w);
    DroppedDoesNot(w, p, k);
    DeletionSafe(p, k);
  }

  /** If the update takes back what left the selection, the next pass deletes it while it is published and routed. */
  lemma ReaddRun(first: State, kept: Selection, gone: string, until: int, overrides: Selection,
                 profiles: map<string, Component>) returns (w: State, p: Pass)
    requires Newborn(first) && Part(first.row, kept) && gone in first.row.overrides && gone !in kept
    requires until == first.setting.drain && 0 < until
    requires Servable(Extended(first.row.plan.value, profiles), overrides) && gone in overrides
    ensures Leads(first, Shrinking(kept, until) + [Update(overrides, profiles)]) == Some(w)
    ensures Alone(w) && Visits(w) && p == Served(w)
    ensures gone in p.w.row.runtime.published && Routed(p.w.h, w.setting.id, gone) && DeletedEarly(p, gone)
  {
    w := Redirects(first, kept, gone, until, overrides, profiles);
    p := RedirectedSafe(first, Shrinking(kept, until) + [Update(overrides, profiles)], w);
    RetakenDoesNot(w, p, gone, p.w.now);
    DeletionSafe(p, gone);
  }

  lemma {:induction false} RoutedNotClear(h: History, id: string, k: string)
    requires Routed(h, id, k)
    ensures MeshClearSince(h, id, k).None? && !NeverRouted(h, id, k)
  {
    RoutedOnce(h, id, k);
    if !h.event.Accepted? {
      RoutedNotClear(h.past, id, k);
    }
  }

  lemma DetachingSafe(w: State, p: Pass, k: string)
    requires Inv(w) && Alone(w) && Ripe(w) && Queueable(w.row.plan.value, w.row.overrides)
    requires p == Detaching(w) && p.w.row == p.c && EndpointFree(p.c) && k in p.c.runtime.retiring
    ensures Safe(Then(p.w.h, WorkloadDeleted(k, p.w.now)), p.w.setting)
  {
    DetachingStands(w);
    DeletionSafe(p, k);
  }

  lemma DetachesEarly(w: State, k: string) returns (p: Pass)
    requires Inv(w) && Alone(w) && Ripe(w) && Queueable(w.row.plan.value, w.row.overrides)
    requires k in w.row.runtime.published && k !in w.row.overrides && Routed(w.h, w.setting.id, k)
    ensures p == Detaching(w) && k !in p.w.row.runtime.published && Routed(p.w.h, w.setting.id, k) && DeletedEarly(p, k)
  {
    p := UnverifiedStillRouted(w, k);
    RoutedNotClear(p.w.h, w.setting.id, k);
    DetachingSafe(w, p, k);
  }

  /** The first selection goes live, and then an update desires workers only. */
  lemma Detours(first: State, overrides: Selection, profiles: map<string, Component>) returns (w: State)
    requires Newborn(first) && Queueable(Extended(first.row.plan.value, profiles), overrides)
    ensures Leads(first, [Complete(1)] + [Update(overrides, profiles)]) == Some(w)
    ensures Moment(w, first.row.overrides.Keys, {}, None) && Ripe(w) && w.setting == first.setting
    ensures w.row.overrides == overrides && Queueable(w.row.plan.value, overrides)
  {
    var live := Completes(first, [], first, {}, 1);
    assert [] + [Complete(1)] == [Complete(1)];
    w := Turns(first, [Complete(1)], live, first.row.overrides.Keys, {}, None, overrides, profiles);
  }

  /** Without verification, an update to a selection without endpoints has the next pass delete what is still routed. */
  lemma DetachRun(first: State, overrides: Selection, profiles: map<string, Component>, k: string) returns (w: State, p: Pass)
    requires Newborn(first) && Queueable(Extended(first.row.plan.value, profiles), overrides)
    requires k in first.row.overrides && k !in overrides
    ensures Leads(first, [Complete(1)] + [Update(overrides, profiles)]) == Some(w)
    ensures Alone(w) && Ripe(w) && p == Detaching(w)
    ensures k !in p.w.row.runtime.published && Routed(p.w.h, w.setting.id, k) && DeletedEarly(p, k)
  {
    w := Detours(first, overrides, profiles);
    LeadsKept(first, [Complete(1)] + [Update(overrides, profiles)]);
    p := DetachesEarly(w, k);
  }

  // ----- One run of each kind -----

  /** A drain takes ten seconds here, and a second is one tick. */
  const SETTING := Setting("p", 10, false)
  const IMAGE := Override("image", "")

  function Web(k: string): Component {
    Component(k, 80, None)
  }

  function Queue(k: string): Component {
    Component(k, 0, Some(WorkloadExecution(Worker, [], Missing, 0, 0, 0, 0, "")))
  }

  function Chosen(names: set<string>): Selection {
    map k | k in names :: IMAGE
  }

  lemma ChosenSize(names: set<string>)
    ensures Chosen(names).Keys == names && |Chosen(names)| == |names|
  {
  }

  /** A composition created at time zero with these web components. */
  function NewRow(verification: string, names: set<string>): Composition {
    BLANK.(
      id := SETTING.id,
      overrides := Chosen(names),
      expiresAt := 3600,
      endpoints := map["public" := Endpoint(Some("p.example"), false)],
      plan := Some(Plan(
        Baseline(BaselineRouting("", "", "", "", "", None), verification, Some("example"), map[], map[]),
        map k | k in names :: Web(k), [])))
  }

  ghost function Beginning(verification: string, names: set<string>): State {
    Start(SETTING, [], 0, NewRow(verification, names))
  }

  lemma Begins(verification: string, names: set<string>)
    requires 0 < |names| <= MAX_OVERRIDES
    ensures Newborn(Beginning(verification, names))
  {
    ChosenSize(names);
    var k :| k in names;
    assert ServesRequests(NewRow(verification, names).plan.value.profiles, k);
  }

  /** Such a composition of these web components goes live. */
  lemma ReadyExample(verification: string, names: set<string>) returns (w: State, p: History)
    requires 0 < |names| <= MAX_OVERRIDES
    ensures Leads(Beginning(verification, names), [Complete(1)]) == Some(w) && Safe(w.h, w.setting)
    ensures w.h == Then(p, Saved(w.row, 0)) && HasReadyEndpoint(w.row)
  {
    Begins(verification, names);
    w, p := GoesLive(Beginning(verification, names));
  }

  /** From {a, b} to {b}, and to {c} when the deadline has passed: b is deleted as its routes go. */
  lemma DropExample(verification: string, a: string, b: string, c: string) returns (w: State, p: Pass)
    requires a != b && b != c
    ensures var moves := Shrinking(Chosen({b}), SETTING.drain) + [Update(Chosen({c}), map[c := Web(c)])];
            Leads(Beginning(verification, {a, b}), moves) == Some(w)
    ensures Alone(w) && Visits(w) && p == Served(w) && Routed(w.h, w.setting.id, b)
    ensures ClearSince(p.w, b) == Some(p.w.now) && DeletedEarly(p, b)
  {
    Begins(verification, {a, b});
    ChosenSize({b});
    ChosenSize({c});
    w, p := DropRun(Beginning(verification, {a, b}), Chosen({b}), a, SETTING.drain, Chosen({c}), map[c := Web(c)], b);
  }

  /** From {a, b} to {b}, and back when the deadline has passed: a is deleted while it is published and routed. */
  lemma ReaddExample(verification: string, a: string, b: string) returns (w: State, p: Pass)
    requires a != b
    ensures var moves := Shrinking(Chosen({b}), SETTING.drain) + [Update(Chosen({a, b}), map[])];
            Leads(Beginning(verification, {a, b}), moves) == Some(w)
    ensures Alone(w) && Visits(w) && p == Served(w)
    ensures a in p.w.row.runtime.published && Routed(p.w.h, w.setting.id, a) && DeletedEarly(p, a)
  {
    Begins(verification, {a, b});
    ChosenSize({b});
    ChosenSize({a, b});
    w, p := ReaddRun(Beginning(verification, {a, b}), Chosen({b}), a, SETTING.drain, Chosen({a, b}), map[]);
  }

  /** Without verification, from the web component a to the worker j: a is deleted while it is routed. */
  lemma DetachExample(a: string, j: string) returns (w: State, p: Pass)
    requires a != j
    ensures var moves := [Complete(1)] + [Update(Chosen({j}), map[j := Queue(j)])];
            Leads(Beginning("none", {a}), moves) == Some(w)
    ensures Alone(w) && Ripe(w) && p == Detaching(w)
    ensures a !in p.w.row.runtime.published && Routed(p.w.h, w.setting.id, a) && DeletedEarly(p, a)
  {
    Begins("none", {a});
    ChosenSize({j});
    w, p := DetachRun(Beginning("none", {a}), Chosen({j}), map[j := Queue(j)], a);
  }
}
