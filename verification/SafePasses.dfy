/**
 The passes of `Passes` are passes of the modelled worker: every row that they save may be saved, every
 event is permitted, and the copy is one that a worker may hold, so their histories are safe.
 */
module SafePasses {
  import opened Domain
  import opened Ordering
  import opened RouteTable
  import opened History
  import opened World
  import opened Reconciler
  import opened Passes

  /** The world is one of a run, and the worker may hold this copy of its row. */
  ghost predicate Stands(p: Pass) {
    Inv(p.w) && p.c in Copies(p.w, p.w.row) && p.c in Converging(p.w.row)
  }

  // ----- Workloads -----

  ghost predicate Visiting(p: Pass) {
    Stands(p) && p.c in Visited(p.w.row, {}) && !p.w.row.messageIsolation
  }

  lemma BegunStands(w: State)
    requires Inv(w) && Ripe(w) && !w.row.deletionRequested && w.row.phase != Destroyed
    requires w.row.plan.Some? && !w.row.messageIsolation
    ensures Visiting(Begun(w))
  {
    var c := Begun(w).c;
    assert w.row in Copies(w, w.row);
    Reworded(w, w.row, w.row, c);
  }

  /** The world moves by an event that says nothing about routes and rows; the copy stays. */
  lemma EventStands(p: Pass, e: Event)
    requires Stands(p) && Inert(e) && Permitted(p.w.h, e, p.w.setting)
    ensures Stands(p.(w := After(p.w, e)))
  {
    InertKept(p.w, e);
    CopyKept(p.w, After(p.w, e), p.w.row, p.c);
  }

  lemma UpStands(p: Pass, k: string)
    requires Visiting(p) && !JobIn(p.w.row, k)
    ensures Visiting(Up(p, k)) && Up(p, k).w.row == p.w.row
  {
    var e := WorkloadEnsured(k, None);
    EventStands(p, e);
    ReportKept(After(p.w, e), p.w.row, p.c, k, false, RefFor(p.c, k), UP, {});
  }

  lemma {:induction false} AllUpStands(p: Pass, names: seq<string>)
    requires Visiting(p) && forall k :: k in names ==> !JobIn(p.w.row, k)
    ensures Visiting(AllUp(p, names)) && AllUp(p, names).w.row == p.w.row
  {
    if names != [] {
      var front, last := names[..|names| - 1], names[|names| - 1];
      assert names == front + [last];
      AllUpStands(p, front);
      UpStands(AllUp(p, front), last);
    }
  }

  lemma {:induction false} AllUpGood(p: Pass, names: seq<string>)
    ensures AllGood(AllUp(p, names).c, set k | k in names)
  {
    if names != [] {
      var front, last := names[..|names| - 1], names[|names| - 1];
      assert names == front + [last];
      AllUpGood(p, front);
    }
  }

  lemma DeployedStands(w: State)
    requires Inv(w) && Ripe(w) && !w.row.deletionRequested && w.row.phase != Destroyed
    requires w.row.plan.Some? && !w.row.messageIsolation && forall k :: k in w.row.overrides ==> !JobIn(w.row, k)
    ensures Stands(Deployed(w)) && AllGood(Deployed(w).c, w.row.overrides.Keys) && Deployed(w).w.row == w.row
  {
    var names := SortedKeys(w.row.overrides.Keys);
    SortedKeysListing(w.row.overrides.Keys);
    BegunStands(w);
    AllUpStands(Begun(w), names);
    AllUpGood(Begun(w), names);
  }

  // ----- Saves and syncs -----

  lemma StoredStands(p: Pass)
    requires Stands(p)
    ensures Stands(Stored(p))
  {
    SaveKept(p.w, p.c);
  }

  lemma ActivatedStands(p: Pass)
    requires Stands(p)
    ensures Stands(Activated(p))
  {
    if !p.c.runtime.routingActive {
      ActivationKept(p.w, p.w.row, p.c);
      StoredStands(p.(c := Activation(p.c)));
    }
  }

  lemma OfferedKept(w: World, s: Snapshot) returns (v: World)
    requires w.inFlight.None? && SnapshotOf(Active(w), w.now) == Some(s)
    ensures v == Offers(Reads(w, s), Read(w.row, s, false)) && Keeps(w, v)
  {
    ReadKept(w);
    var r: World := Reads(w, s);
    OfferKept(r);
    v := Offers(r, Read(w.row, s, false));
    KeepsTransitive(w, r, v);
  }

  lemma SyncKept(w: World, s: Snapshot) returns (v: World)
    requires w.inFlight.None? && SnapshotOf(Active(w), w.now) == Some(s)
    ensures v == Accepts(Offers(Reads(w, s), Read(w.row, s, false)), Read(w.row, s, true))
    ensures Keeps(w, v) && OnlyRouted(v, w.row.runtime.published)
  {
    ReadSays(w);
    var o := OfferedKept(w, s);
    AcceptKept(o);
    v := Accepts(o, Read(w.row, s, true));
    KeepsTransitive(w, o, v);
  }

  lemma SyncedStands(p: Pass)
    requires Stands(p) && Alone(p.w)
    ensures Stands(Synced(p)) && OnlyRouted(Synced(p).w, p.w.row.runtime.published)
  {
    var s := SyncSays(p);
    var v := SyncKept(p.w, s);
    CopyKept(p.w, v, p.w.row, p.c);
  }

  lemma RepublishedStands(p: Pass)
    requires Stands(p) && Entering(p.w, p.w.row, MoveRetired(p.c))
    ensures Stands(Republished(p))
  {
    MoveRetiredKept(p.w, p.w.row, p.c);
    StoredStands(p.(c := MoveRetired(p.c)));
  }

  /** Reached after a sync: nothing is routed but the stored selection. */
  ghost predicate Settled(p: Pass) {
    Stands(p) && OnlyRouted(p.w, p.w.row.runtime.published)
  }

  lemma SettledEnters(p: Pass)
    requires Settled(p)
    ensures Entering(p.w, p.w.row, MoveRetired(p.c))
  {
  }

  lemma RepublishedSettled(p: Pass)
    requires Settled(p) && Routing(p)
    ensures Settled(Synced(Republished(p))) && Synced(Republished(p)).w.setting == p.w.setting
  {
    SettledEnters(p);
    RepublishedStands(p);
    var r := Stores(p);
    SyncedStands(r);
  }

  lemma ReroutedSettled(p: Pass)
    requires Settled(p) && Routing(p)
    ensures Settled(Rerouted(p)) && Rerouted(p).w.setting == p.w.setting
  {
    if p.c.runtime.published != p.c.overrides {
      RepublishedSettled(p);
    }
  }

  lemma PassingSettled(p: Pass)
    requires Settled(p) && !p.w.setting.observer
    ensures Settled(Passing(p)) && Evident(Passing(p))
  {
    EventStands(p, Verified(p.c.generation, true));
    Reworded(Passing(p).w, p.w.row, p.c, Passing(p).c);
    InertKept(p.w, Verified(p.c.generation, true));
  }

  /** The check behind the copy. */
  ghost predicate Evident(p: Pass) {
    CheckedFor(p.w.h, p.c, p.w.setting) && p.c.pendingVerification == Some(EvidenceFor(p.c, true))
  }

  lemma IntendsStands(w: State)
    requires Inv(w) && Alone(w) && Visits(w)
    ensures Stands(Activated(Deployed(w)))
  {
    DeployedStands(w);
    ActivatedStands(Deployed(w));
  }

  lemma ActivatedSettled(w: State) returns (s: Pass)
    requires Inv(w) && Alone(w) && Visits(w)
    ensures s == Synced(Activated(Deployed(w))) && Settled(s)
  {
    IntendsStands(w);
    var a := Intends(w);
    SyncedStands(a);
    s := Synced(a);
  }

  lemma ServedSettled(w: State) returns (p: Pass)
    requires Inv(w) && Alone(w) && Visits(w)
    ensures p == Served(w) && Settled(p) && Evident(p)
  {
    var s := ActivatedSettled(w);
    var a := Activates(w);
    ReroutedSettled(s);
    var r := Rerouted(s);
    PassingSettled(r);
    p := Passing(r);
  }

  lemma SyncedCopy(p: Pass)
    ensures Synced(p).c == p.c
  {
  }

  lemma ReroutedGood(p: Pass, done: set<string>)
    requires AllGood(p.c, done)
    ensures AllGood(Rerouted(p).c, done)
  {
    SyncedCopy(Republished(p));
  }

  lemma ServedGood(w: State)
    requires Inv(w) && Alone(w) && Visits(w)
    ensures AllGood(Served(w).c, w.row.overrides.Keys)
  {
    DeployedStands(w);
    var a := Activated(Deployed(w));
    SyncedCopy(a);
    ReroutedGood(Synced(a), w.row.overrides.Keys);
  }

  // ----- The final write -----

  lemma WrittenKept(p: Pass, c: Composition, next: int)
    requires Inv(p.w) && c in Savables(p.w, p.w.row)
    ensures Inv(Written(p.w, c, next))
  {
    var d := c.(schedule := c.schedule.(nextAttemptAt := next, observedGeneration := c.generation));
    Rescheduled(p.w, p.w.row, c, d);
    SaveKept(p.w, d);
  }

  lemma FinishedKept(w: State, next: int)
    requires Inv(w) && Alone(w) && Visits(w) && Served(w).c.runtime.retiring == map[]
    ensures Inv(Finished(w, next))
  {
    var p := ServedSettled(w);
    var q := Serves(w);
    ServedGood(w);
    Readied(p.w, p.w.row, p.c, next);
    WrittenKept(p, ReadyRow(p.c, next), next);
  }

  lemma DelayedKept(w: State, until: int, next: int)
    requires Inv(w) && Alone(w) && Visits(w) && Served(w).c.runtime.retiring != map[]
    requires w.now + w.setting.drain <= until
    ensures Inv(Delayed(w, until, next))
  {
    var p := ServedSettled(w);
    var q := Serves(w);
    DeadlineKept(p.w, p.w.row, p.c, until);
    UnreadySavable(p.w, p.w.row, WithDeadline(p.c, until));
    WrittenKept(p, WithDeadline(p.c, until), next);
  }

  lemma FailingKept(w: State, next: int)
    requires Inv(w) && Alone(w) && Visits(w)
    ensures Inv(Failing(w, next))
  {
    DeployedStands(w);
    ActivatedStands(Deployed(w));
    var p := Activated(Deployed(w));
    var c := FailedRow(p.c, "load aggregate routes", next);
    Reworded(p.w, p.w.row, p.c, c);
    UnreadySavable(p.w, p.w.row, c);
    WrittenKept(p, c, next);
  }

  // ----- The deletion that comes next -----

  /** What is due is deleted: the history goes on being safe. */
  lemma DeletionSafe(p: Pass, k: string)
    requires Stands(p) && DueNow(p.w, p.c) && k in p.c.runtime.retiring && p.w.row.runtime.published == p.c.runtime.published
    ensures Safe(Then(p.w.h, WorkloadDeleted(k, p.w.now)), p.w.setting)
  {
    DeletionPermitted(p.w, p.w.row, p.c, k);
  }

  lemma SilentEnters(p: Pass)
    requires forall k :: k in p.c.overrides ==> Silent(p.c.plan, k)
    ensures Entering(p.w, p.w.row, MoveRetired(p.c))
  {
  }

  lemma DetachingStands(w: State)
    requires Inv(w) && Ripe(w) && !w.row.deletionRequested && w.row.phase != Destroyed
    requires w.row.plan.Some? && !w.row.messageIsolation
    requires forall k :: k in w.row.overrides ==> !JobIn(w.row, k) && Silent(w.row.plan, k)
    ensures Stands(Detaching(w))
  {
    DeployedStands(w);
    var d := Deployed(w);
    SilentEnters(d);
    RepublishedStands(d);
  }
}
