/**
 Runs of a composition that is alone, as sequences of moves: passes in one of their endings, accepted
 updates, and time. Each move leads from a moment at which the published components are exactly what is
 routed to another such moment.
 */
module Runs {
  import opened Domain
  import opened RouteTable
  import opened History
  import opened World
  import opened Reconciler
  import opened Passes
  import opened SafePasses

  /** Between passes: exactly these components are published and routed, and these retire under this deadline. */
  ghost predicate Moment(w: State, published: set<string>, retiring: set<string>, until: Option<int>) {
    && Alone(w) && w.row.runtime.retirementDrainUntil == until
    && (forall k :: k in w.row.runtime.published <==> k in published)
    && (forall k :: Routed(w.h, w.setting.id, k) <==> k in published)
    && (forall k :: k in w.row.runtime.retiring <==> k in retiring)
  }

  predicate Idle(c: Composition) {
    c.runtime.retiring.Keys == {}
  }

  /** Rows that differ in nothing that routes depend on. */
  predicate Alongside(c: Composition, d: Composition) {
    Carries(d, c) && d.runtime == c.runtime.(retirementDrainUntil := d.runtime.retirementDrainUntil)
  }

  /** The final write of such a row leaves what is routed as it is. */
  lemma Writes(p: Pass, c: Composition, next: int) returns (v: State)
    requires Alone(p.w) && Routable(p.c) && Carries(p.c, p.w.row) && Alongside(p.c, c)
    ensures v == Written(p.w, c, next) && Alone(v) && v.now == p.w.now && v.setting == p.w.setting
    ensures v.row.runtime == c.runtime && v.row.phase == c.phase && v.row.schedule.nextAttemptAt == next && Carries(v.row, p.c)
    ensures forall k :: Routed(v.h, p.w.setting.id, k) == Routed(p.w.h, p.w.setting.id, k) && ClearSince(v, k) == ClearSince(p.w, k)
  {
    v := Written(p.w, c, next);
    assert forall k :: ValidReference(v.row, k) == ValidReference(p.c, k);
  }

  lemma HostKept(c: Composition, ready: bool)
    ensures EndpointHost(SetReady(c, ready)) == EndpointHost(c)
  {
  }

  /** What a written pass leaves behind: the desired selection published and routed, the rest retiring. */
  ghost predicate Leaves(w: State, v: State) {
    && Alone(v) && Carries(v.row, w.row) && v.now == w.now && v.setting == w.setting
    && v.row.runtime.published == w.row.overrides && Joins(v.row, w.row)
    && (forall k :: Routed(v.h, w.setting.id, k) <==> k in w.row.overrides)
    && (forall k :: k in w.row.runtime.published && k !in w.row.overrides ==> ClearSince(v, k) == Some(w.now))
  }

  lemma Ends(w: State, p: Pass, c: Composition, next: int) returns (v: State)
    requires InForce(w, p) && Alongside(p.c, c)
    ensures v == Written(p.w, c, next) && Leaves(w, v)
    ensures v.row.runtime == c.runtime && v.row.phase == c.phase && v.row.schedule.nextAttemptAt == next
  {
    v := Writes(p, c, next);
  }

  lemma EndsReady(w: State, next: int) returns (v: State)
    requires Alone(w) && Visits(w)
    ensures v == Finished(w, next) && Leaves(w, v) && v.row.phase == Ready
    ensures v.row.runtime.retiring == Served(w).c.runtime.retiring
    ensures v.row.runtime.retirementDrainUntil == w.row.runtime.retirementDrainUntil
  {
    var p := Serves(w);
    HostKept(SettledRow(p.c, Ready, next), true);
    v := Ends(w, p, ReadyRow(p.c, next), next);
  }

  lemma EndsDelayed(w: State, until: int, next: int) returns (v: State)
    requires Alone(w) && Visits(w)
    ensures v == Delayed(w, until, next) && Leaves(w, v) && v.row.schedule.nextAttemptAt == next
    ensures v.row.runtime.retiring == Served(w).c.runtime.retiring && v.row.runtime.retirementDrainUntil == Some(until)
    ensures Served(w).c.runtime.retirementDrainUntil == w.row.runtime.retirementDrainUntil
  {
    var p := Serves(w);
    v := Ends(w, p, WithDeadline(p.c, until), next);
  }

  lemma LeavesRetiring(w: State, v: State, published: set<string>, k: string, until: int)
    requires Moment(w, published, {}, None) && Leaves(w, v) && k in published && k !in w.row.overrides
    requires v.row.runtime.retirementDrainUntil == Some(until)
    ensures Moment(v, w.row.overrides.Keys, published - w.row.overrides.Keys, Some(until))
    ensures !Idle(v.row)
  {
    assert k in v.row.runtime.retiring;
  }

  /** What can happen at such a moment: a pass in one of its endings, an accepted update, or nothing for a while. */
  datatype Move =
    | Complete(next: int)
    | Delay(until: int, next: int)
    | Fail(next: int)
    | Update(overrides: Selection, profiles: map<string, Component>)
    | Tick(later: int)

  ghost function Next(w: State, m: Move): Option<State> {
    match m
    case Complete(next) =>
      if Alone(w) && Visits(w) && Idle(Served(w).c) then Some(Finished(w, next)) else None
    case Delay(until, next) =>
      if Alone(w) && Visits(w) && !Idle(Served(w).c) && Served(w).c.runtime.retirementDrainUntil.None?
         && until == w.now + w.setting.drain
      then Some(Delayed(w, until, next)) else None
    case Fail(next) =>
      if Alone(w) && Visits(w) then Some(Failing(w, next)) else None
    case Update(overrides, profiles) =>
      if Updatable(w.row, w.now) then Some(Desires(w, Updated(w.row, overrides, profiles, w.now))) else None
    case Tick(later) =>
      if w.now <= later then Some(w.(now := later)) else None
  }

  /** Every move keeps the invariant of the world. */
  lemma NextKept(w: State, m: Move)
    requires Inv(w) && Next(w, m).Some?
    ensures Inv(Next(w, m).value)
  {
    match m
    case Complete(next) => CompleteKept(w, next);
    case Delay(until, next) => DelayedKept(w, until, next);
    case Fail(next) => FailingKept(w, next);
    case Update(overrides, profiles) => UpdateKept(w, overrides, profiles);
    case Tick(later) => TickKept(w, later);
  }

  lemma CompleteKept(w: State, next: int)
    requires Inv(w) && Alone(w) && Visits(w) && Idle(Served(w).c)
    ensures Inv(Finished(w, next))
  {
    assert Served(w).c.runtime.retiring == map[];
    FinishedKept(w, next);
  }

  /** Where the moves lead from w, if each of them can happen. */
  ghost function Leads(w: State, moves: seq<Move>): Option<State> {
    if moves == [] then Some(w) else
      var v := Leads(w, moves[..|moves| - 1]);
      if v.None? then None else Next(v.value, moves[|moves| - 1])
  }

  lemma LeadsOn(w: State, moves: seq<Move>, m: Move)
    requires Leads(w, moves).Some?
    ensures Leads(w, moves + [m]) == Next(Leads(w, moves).value, m)
  {
    assert (moves + [m])[..|moves|] == moves;
  }

  /** So a run from a moment of the world leads to a moment of the world, and its history is safe. */
  lemma {:induction false} LeadsKept(w: State, moves: seq<Move>)
    requires Inv(w) && Leads(w, moves).Some?
    ensures Inv(Leads(w, moves).value)
  {
    if moves != [] {
      LeadsKept(w, moves[..|moves| - 1]);
      NextKept(Leads(w, moves[..|moves| - 1]).value, moves[|moves| - 1]);
    }
  }

  lemma Completes(first: State, moves: seq<Move>, w: State, published: set<string>, next: int) returns (v: State)
    requires Leads(first, moves) == Some(w)
    requires Moment(w, published, {}, None) && Visits(w) && published <= w.row.overrides.Keys
    ensures Leads(first, moves + [Complete(next)]) == Some(v) && Moment(v, w.row.overrides.Keys, {}, None)
    ensures Carries(v.row, w.row) && v.row.phase == Ready && v.now == w.now && v.setting == w.setting
  {
    v := EndsReady(w, next);
    LeadsOn(first, moves, Complete(next));
  }

  lemma DelayLeads(first: State, moves: seq<Move>, w: State, until: int, next: int)
    requires Leads(first, moves) == Some(w) && Alone(w) && Visits(w) && until == w.now + w.setting.drain
    requires !Idle(Served(w).c) && Served(w).c.runtime.retirementDrainUntil.None?
    ensures Leads(first, moves + [Delay(until, next)]) == Some(Delayed(w, until, next))
  {
    LeadsOn(first, moves, Delay(until, next));
  }

  lemma Delays(first: State, moves: seq<Move>, w: State, published: set<string>, k: string, until: int, next: int) returns (v: State)
    requires Leads(first, moves) == Some(w)
    requires Moment(w, published, {}, None) && Visits(w) && k in published && k !in w.row.overrides
    requires until == w.now + w.setting.drain
    ensures Leads(first, moves + [Delay(until, next)]) == Some(v)
    ensures Moment(v, w.row.overrides.Keys, published - w.row.overrides.Keys, Some(until))
    ensures forall i :: i in published && i !in w.row.overrides ==> ClearSince(v, i) == Some(w.now)
    ensures Carries(v.row, w.row) && v.row.schedule.nextAttemptAt == next && v.now == w.now && v.setting == w.setting
  {
    v := EndsDelayed(w, until, next);
    LeavesRetiring(w, v, published, k, until);
    DelayLeads(first, moves, w, until, next);
  }

  lemma EndsFailed(w: State, next: int) returns (v: State)
    requires Alone(w) && Visits(w)
    ensures v == Failing(w, next) && Alone(v) && Carries(v.row, w.row) && v.row.phase == Failed
    ensures v.now == w.now && v.setting == w.setting
    ensures v.row.runtime == w.row.runtime.(workloads := v.row.runtime.workloads, routingActive := true)
    ensures forall k :: Routed(v.h, w.setting.id, k) == Routed(w.h, w.setting.id, k) && ClearSince(v, k) == ClearSince(w, k)
  {
    var p := Intends(w);
    HostKept(p.c, false);
    v := Writes(p, FailedRow(p.c, "load aggregate routes", next), next);
  }

  lemma Fails(first: State, moves: seq<Move>, w: State, published: set<string>, retiring: set<string>, until: Option<int>, next: int)
    returns (v: State)
    requires Leads(first, moves) == Some(w) && Moment(w, published, retiring, until) && Visits(w)
    ensures Leads(first, moves + [Fail(next)]) == Some(v) && Moment(v, published, retiring, until)
    ensures forall k :: ClearSince(v, k) == ClearSince(w, k)
    ensures Carries(v.row, w.row) && v.row.phase == Failed && v.now == w.now && v.setting == w.setting
  {
    v := EndsFailed(w, next);
    LeadsOn(first, moves, Fail(next));
  }

  /** An accepted update changes what is desired and nothing that is routed. */
  lemma Updates(w: State, published: set<string>, retiring: set<string>, until: Option<int>,
                overrides: Selection, profiles: map<string, Component>) returns (v: State)
    requires Moment(w, published, retiring, until)
    ensures v == Desires(w, Updated(w.row, overrides, profiles, w.now)) && Moment(v, published, retiring, until)
  {
    v := Desires(w, Updated(w.row, overrides, profiles, w.now));
    assert forall k :: ValidReference(v.row, k) == ValidReference(w.row, k);
    assert forall k :: Serving(w.row, k) ==> Serving(v.row, k);
  }

  lemma Turns(first: State, moves: seq<Move>, w: State, published: set<string>, retiring: set<string>, until: Option<int>,
              overrides: Selection, profiles: map<string, Component>) returns (v: State)
    requires Leads(first, moves) == Some(w) && Moment(w, published, retiring, until) && Updatable(w.row, w.now)
    requires 0 <= w.now && |overrides| <= MAX_OVERRIDES
    ensures Leads(first, moves + [Update(overrides, profiles)]) == Some(v) && Moment(v, published, retiring, until) && Ripe(v)
    ensures v.row.overrides == overrides && v.row.expiresAt == w.row.expiresAt && v.now == w.now && v.setting == w.setting
    ensures v.row.plan == Some(Extended(w.row.plan.value, profiles))
  {
    v := Updates(w, published, retiring, until, overrides, profiles);
    LeadsOn(first, moves, Update(overrides, profiles));
  }

  lemma Later(w: State, published: set<string>, retiring: set<string>, until: Option<int>, later: int)
    requires Moment(w, published, retiring, until)
    ensures Moment(w.(now := later), published, retiring, until)
  {
  }

  lemma Ticks(w: State, later: int)
    requires w.now <= later
    ensures Next(w, Tick(later)) == Some(w.(now := later))
  {
  }

  lemma TickLeads(first: State, moves: seq<Move>, w: State, later: int)
    requires Leads(first, moves) == Some(w) && w.now <= later
    ensures Leads(first, moves + [Tick(later)]) == Some(w.(now := later))
  {
    LeadsOn(first, moves, Tick(later));
    Ticks(w, later);
  }

  lemma Waits(first: State, moves: seq<Move>, w: State, published: set<string>, retiring: set<string>, until: Option<int>,
              later: int) returns (v: State)
    requires Leads(first, moves) == Some(w) && Moment(w, published, retiring, until) && w.now <= later
    ensures v == w.(now := later) && Leads(first, moves + [Tick(later)]) == Some(v) && Moment(v, published, retiring, until)
    ensures forall k :: ClearSince(v, k) == ClearSince(w, k)
  {
    v := w.(now := later);
    Later(w, published, retiring, until, later);
    TickLeads(first, moves, w, later);
  }
}
