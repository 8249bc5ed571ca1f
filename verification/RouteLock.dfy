/**
 Any number of workers share one route table. Each sync takes the route lock, reads the store, calls
 the provider with the snapshot of what it read, and lets go, while the store keeps moving. The
 actions are interleaved at will, and a crash drops every worker and the lock at once.
 */
module RouteLock {
  import opened Domain
  import opened RouteTable

  datatype Stage =
    | Locked
    | HasRead(version: nat, now: int, snapshot: Snapshot)
    | Calling

  datatype Call = Call(worker: nat, version: nat, now: int, snapshot: Snapshot)

  /** `versions` are the committed contents of the store, `calls` the provider calls, both in order. */
  datatype State = State(
    versions: seq<seq<Composition>>,
    lock: Option<nat>,
    stages: map<nat, Stage>,
    calls: seq<Call>)

  datatype Action =
    | Commit(rows: seq<Composition>)   // any store write: create, update, delete, expire, save
    | Acquire(worker: nat)
    | ReadStore(worker: nat, now: int)
    | CallProvider(worker: nat)
    | Finish(worker: nat)              // the call is over, or the sync fails on its way; the lock is released
    | Crash

  // ----- What store writes never take back -----

  ghost predicate Stored(versions: seq<seq<Composition>>, id: string) {
    exists v, i :: 0 <= v < |versions| && 0 <= i < |versions[v]| && versions[v][i].id == id
  }

  ghost predicate DeletionStored(rows: seq<Composition>, id: string) {
    forall i :: 0 <= i < |rows| && rows[i].id == id ==> rows[i].deletionRequested
  }

  ghost predicate RemovalStored(rows: seq<Composition>, id: string) {
    forall i :: 0 <= i < |rows| && rows[i].id == id ==> rows[i].runtime.routesRemoved
  }

  /** Deletion and route removal are never undone, and a composition that is gone does not return. */
  ghost predicate Writes(versions: seq<seq<Composition>>, rows: seq<Composition>)
    requires versions != []
  {
    var last := versions[|versions| - 1];
    DistinctIDs(rows) &&
    forall id :: Stored(versions, id) ==>
      (DeletionStored(last, id) ==> DeletionStored(rows, id)) && (RemovalStored(last, id) ==> RemovalStored(rows, id))
  }

  // ----- Steps -----

  function Current(s: State): seq<Composition>
    requires s.versions != []
  {
    s.versions[|s.versions| - 1]
  }

  predicate At(s: State, worker: nat, stage: Stage) {
    worker in s.stages && s.stages[worker] == stage
  }

  /** One action; `None` where it cannot happen. `exclusive` is whether the lock is respected. */
  ghost function Next(s: State, a: Action, exclusive: bool): Option<State>
    requires s.versions != []
  {
    match a
    case Commit(rows) =>
      if Writes(s.versions, rows) then Some(s.(versions := s.versions + [rows])) else None
    case Acquire(worker) =>
      if worker !in s.stages && (s.lock.None? || !exclusive)
      then Some(s.(lock := Some(worker), stages := s.stages[worker := Locked])) else None
    case ReadStore(worker, now) =>
      if At(s, worker, Locked) && SnapshotOf(Current(s), now).Some?
      then Some(s.(stages := s.stages[worker := HasRead(|s.versions| - 1, now, SnapshotOf(Current(s), now).value)])) else None
    case CallProvider(worker) =>
      if worker in s.stages && s.stages[worker].HasRead?
      then Some(Called(s, worker)) else None
    case Finish(worker) =>
      if worker in s.stages then Some(s.(lock := None, stages := s.stages - {worker})) else None
    case Crash => Some(s.(lock := None, stages := map[]))
  }

  ghost function Start(rows: seq<Composition>): State {
    State([rows], None, map[], [])
  }

  ghost function Exec(rows: seq<Composition>, actions: seq<Action>, exclusive: bool): (r: Option<State>)
    ensures r.Some? ==> r.value.versions != []
  {
    if actions == [] then Some(Start(rows)) else
      match Exec(rows, actions[..|actions| - 1], exclusive)
      case None => None
      case Some(s) => Next(s, actions[|actions| - 1], exclusive)
  }

  // ----- Invariants -----

  /** Only the holder of the lock is anywhere in a sync. */
  ghost predicate Exclusive(s: State) {
    forall worker :: worker in s.stages ==> s.lock == Some(worker)
  }

  /** A snapshot is the one of a committed version. */
  ghost predicate Faithful(versions: seq<seq<Composition>>, version: nat, now: int, snapshot: Snapshot) {
    version < |versions| && SnapshotOf(versions[version], now) == Some(snapshot)
  }

  ghost predicate AllFaithful(s: State) {
    && (forall i :: 0 <= i < |s.calls| ==> Faithful(s.versions, s.calls[i].version, s.calls[i].now, s.calls[i].snapshot))
    && (forall w :: w in s.stages && s.stages[w].HasRead? ==>
          Faithful(s.versions, s.stages[w].version, s.stages[w].now, s.stages[w].snapshot))
  }

  /** Calls come in the order of the versions they were read from, and a pending read is no older than any. */
  ghost predicate Ordered(s: State) {
    && (forall i, j :: 0 <= i <= j < |s.calls| ==> s.calls[i].version <= s.calls[j].version)
    && (forall w, i :: w in s.stages && s.stages[w].HasRead? && 0 <= i < |s.calls| ==>
          s.calls[i].version <= s.stages[w].version)
  }

  ghost predicate Lasting(versions: seq<seq<Composition>>) {
    && (forall v :: 0 <= v < |versions| ==> DistinctIDs(versions[v]))
    && (forall u, v, id :: 0 <= u <= v < |versions| && Stored(versions[..u + 1], id) && DeletionStored(versions[u], id) ==>
          DeletionStored(versions[v], id))
    && (forall u, v, id :: 0 <= u <= v < |versions| && Stored(versions[..u + 1], id) && RemovalStored(versions[u], id) ==>
          RemovalStored(versions[v], id))
  }

  lemma LastingKept(versions: seq<seq<Composition>>, rows: seq<Composition>)
    requires versions != [] && Lasting(versions) && Writes(versions, rows)
    ensures Lasting(versions + [rows])
  {
    var next := versions + [rows];
    var n := |versions|;
    forall u, v, id | 0 <= u <= v < |next| && Stored(next[..u + 1], id) && DeletionStored(next[u], id)
      ensures DeletionStored(next[v], id)
    {
      if u < n {
        assert next[..u + 1] == versions[..u + 1];
        if v == n {
          StoredEarlier(versions, u, id);
          assert DeletionStored(versions[n - 1], id);
        }
      }
    }
    forall u, v, id | 0 <= u <= v < |next| && Stored(next[..u + 1], id) && RemovalStored(next[u], id)
      ensures RemovalStored(next[v], id)
    {
      if u < n {
        assert next[..u + 1] == versions[..u + 1];
        if v == n {
          StoredEarlier(versions, u, id);
          assert RemovalStored(versions[n - 1], id);
        }
      }
    }
  }

  lemma StoredEarlier(versions: seq<seq<Composition>>, u: nat, id: string)
    requires u < |versions| && Stored(versions[..u + 1], id)
    ensures Stored(versions, id)
  {
    var v, i :| 0 <= v < u + 1 && 0 <= i < |versions[..u + 1][v]| && versions[..u + 1][v][i].id == id;
    assert versions[v][i].id == id;
  }

  ghost predicate Inv(s: State) {
    s.versions != [] && Exclusive(s) && AllFaithful(s) && Ordered(s) && Lasting(s.versions)
  }

  lemma CommitKept(s: State, rows: seq<Composition>)
    requires Inv(s) && Writes(s.versions, rows)
    ensures Inv(s.(versions := s.versions + [rows]))
  {
    LastingKept(s.versions, rows);
  }

  lemma ReadKept(s: State, worker: nat, now: int)
    requires Inv(s) && worker in s.stages && SnapshotOf(Current(s), now).Some?
    ensures Inv(s.(stages := s.stages[worker := HasRead(|s.versions| - 1, now, SnapshotOf(Current(s), now).value)]))
  {
  }

  function Called(s: State, worker: nat): State
    requires worker in s.stages && s.stages[worker].HasRead?
  {
    var r := s.stages[worker];
    s.(stages := s.stages[worker := Calling], calls := s.calls + [Call(worker, r.version, r.now, r.snapshot)])
  }

  lemma CallFaithful(s: State, worker: nat)
    requires AllFaithful(s) && worker in s.stages && s.stages[worker].HasRead?
    ensures AllFaithful(Called(s, worker))
  {
  }

  lemma CallOrdered(s: State, worker: nat)
    requires Ordered(s) && Exclusive(s) && worker in s.stages && s.stages[worker].HasRead?
    ensures Ordered(Called(s, worker)) && Exclusive(Called(s, worker))
  {
  }

  lemma CallKept(s: State, worker: nat)
    requires Inv(s) && worker in s.stages && s.stages[worker].HasRead?
    ensures Inv(Called(s, worker))
  {
    CallFaithful(s, worker);
    CallOrdered(s, worker);
  }

  lemma StepKept(s: State, a: Action)
    requires Inv(s) && Next(s, a, true).Some?
    ensures Inv(Next(s, a, true).value)
  {
    match a
    case Commit(rows) => CommitKept(s, rows);
    case ReadStore(worker, now) => ReadKept(s, worker, now);
    case CallProvider(worker) => CallKept(s, worker);
    case _ =>
  }

  /** The invariants hold in every state that any interleaving reaches. */
  lemma {:induction false} Invariant(rows: seq<Composition>, actions: seq<Action>)
    requires DistinctIDs(rows) && Exec(rows, actions, true).Some?
    ensures Inv(Exec(rows, actions, true).value)
  {
    if actions != [] {
      var front := actions[..|actions| - 1];
      Invariant(rows, front);
      StepKept(Exec(rows, front, true).value, actions[|actions| - 1]);
    }
  }

  // ----- Results -----

  /** Snapshots reach the provider in the order of the store contents they were read from. */
  lemma CallsInStoreOrder(rows: seq<Composition>, actions: seq<Action>, i: nat, j: nat)
    requires DistinctIDs(rows) && Exec(rows, actions, true).Some?
    requires i <= j < |Exec(rows, actions, true).value.calls|
    ensures var s := Exec(rows, actions, true).value;
            && s.calls[i].version <= s.calls[j].version < |s.versions|
            && SnapshotOf(s.versions[s.calls[j].version], s.calls[j].now) == Some(s.calls[j].snapshot)
  {
    Invariant(rows, actions);
  }

  lemma ShutMeans(rows: seq<Composition>, now: int, id: string)
    requires DistinctIDs(rows) && SnapshotOf(rows, now).Some?
    ensures DeletionStored(rows, id) ==> !IngressOf(SnapshotOf(rows, now).value, id)
    ensures RemovalStored(rows, id) ==> MeshOf(SnapshotOf(rows, now).value, id) == {} && !IngressOf(SnapshotOf(rows, now).value, id)
  {
    var s := SnapshotOf(rows, now).value;
    if c :| c in rows && c.id == id {
      SnapshotSays(rows, now, c);
    } else {
      SnapshotForgets(rows, now, id);
      EntriesMembers(s.mesh, id);
      EntriesMembers(s.ingress, id);
    }
  }

  /**
   Once a deletion is stored and one sync that read it has called the provider, no later call of any
   worker carries an ingress entry of the composition; once its route removal is, no entry at all.
   */
  lemma WithdrawnForGood(rows: seq<Composition>, actions: seq<Action>, stored: nat, id: string, i: nat, j: nat)
    requires DistinctIDs(rows) && Exec(rows, actions, true).Some?
    requires i <= j < |Exec(rows, actions, true).value.calls|
    requires stored <= Exec(rows, actions, true).value.calls[i].version < |Exec(rows, actions, true).value.versions|
    requires Stored(Exec(rows, actions, true).value.versions[..stored + 1], id)
    ensures var s := Exec(rows, actions, true).value;
            && (DeletionStored(s.versions[stored], id) ==> !IngressOf(s.calls[j].snapshot, id))
            && (RemovalStored(s.versions[stored], id) ==>
                  MeshOf(s.calls[j].snapshot, id) == {} && !IngressOf(s.calls[j].snapshot, id))
  {
    Invariant(rows, actions);
    var s := Exec(rows, actions, true).value;
    ShutMeans(s.versions[s.calls[j].version], s.calls[j].now, id);
  }

  /**
   The lock is what does it: without it, a worker that read before the deletion was stored can call
   the provider after another worker's sync of the deletion, and bring the ingress entry back.
   */
  lemma UnlockedSyncRevives(rows: seq<Composition>, deleted: seq<Composition>, now: int, c: Composition)
    returns (actions: seq<Action>)
    requires DistinctIDs(rows) && c in rows && IngressOpen(c, now) && SnapshotOf(rows, now).Some?
    requires Writes([rows], deleted) && DeletionStored(deleted, c.id) && SnapshotOf(deleted, now).Some?
    ensures Exec(rows, actions, false).Some?
    ensures var s := Exec(rows, actions, false).value;
            && |s.versions| == |s.calls| == 2 && s.calls[0].version == 1 && DeletionStored(s.versions[1], c.id)
            && IngressOf(s.calls[1].snapshot, c.id)
  {
    var first := HasRead(0, now, SnapshotOf(rows, now).value);
    var second := HasRead(1, now, SnapshotOf(deleted, now).value);
    var s: State;
    actions, s := Acquires(rows, [], Start(rows), 0, false);
    actions, s := Reads(rows, actions, s, 0, first, false);
    actions, s := Extend(rows, actions, s, Commit(deleted), false);
    actions, s := Acquires(rows, actions, s, 1, false);
    actions, s := Reads(rows, actions, s, 1, second, false);
    actions, s := Calls(rows, actions, s, 1, second, false);
    actions, s := Calls(rows, actions, s, 0, first, false);
    SnapshotSays(rows, now, c);
  }

  lemma FreeMeansIdle(rows: seq<Composition>, actions: seq<Action>, s: State)
    requires DistinctIDs(rows) && Exec(rows, actions, true) == Some(s) && s.lock.None?
    ensures s.stages == map[]
  {
    Invariant(rows, actions);
    assert forall worker :: worker !in s.stages;
  }

  /** Whenever the lock is free, a worker can sync: the provider gets the current contents, and the lock is free again. */
  lemma SyncCalls(rows: seq<Composition>, actions: seq<Action>, s: State, worker: nat, now: int)
    returns (more: seq<Action>, t: State)
    requires DistinctIDs(rows) && Exec(rows, actions, true) == Some(s) && s.versions != []
    requires s.lock.None? && SnapshotOf(Current(s), now).Some?
    ensures actions <= more && Exec(rows, more, true) == Some(t)
    ensures t == s.(calls := s.calls + [Call(worker, |s.versions| - 1, now, SnapshotOf(Current(s), now).value)])
  {
    FreeMeansIdle(rows, actions, s);
    var read := HasRead(|s.versions| - 1, now, SnapshotOf(Current(s), now).value);
    more, t := Acquires(rows, actions, s, worker, true);
    more, t := Reads(rows, more, t, worker, read, true);
    more, t := Calls(rows, more, t, worker, read, true);
    more, t := Extend(rows, more, t, Finish(worker), true);
    assert t.stages == s.stages;
  }

  lemma Extend(rows: seq<Composition>, actions: seq<Action>, s: State, a: Action, exclusive: bool)
    returns (more: seq<Action>, t: State)
    requires s.versions != [] && Exec(rows, actions, exclusive) == Some(s) && Next(s, a, exclusive).Some?
    ensures Some(t) == Next(s, a, exclusive) && t.versions != [] && Exec(rows, more, exclusive) == Some(t) && actions <= more
  {
    more, t := actions + [a], Next(s, a, exclusive).value;
    assert more[..|more| - 1] == actions;
  }

  /** A worker may start a sync while the lock is free, and without the lock at any time. */
  lemma Acquires(rows: seq<Composition>, actions: seq<Action>, s: State, worker: nat, exclusive: bool)
    returns (more: seq<Action>, t: State)
    requires s.versions != [] && Exec(rows, actions, exclusive) == Some(s) && worker !in s.stages
    requires exclusive ==> s.lock.None?
    ensures t == s.(lock := Some(worker), stages := s.stages[worker := Locked])
    ensures Exec(rows, more, exclusive) == Some(t) && actions <= more
  {
    more, t := Extend(rows, actions, s, Acquire(worker), exclusive);
  }

  lemma Reads(rows: seq<Composition>, actions: seq<Action>, s: State, worker: nat, read: Stage, exclusive: bool)
    returns (more: seq<Action>, t: State)
    requires s.versions != [] && Exec(rows, actions, exclusive) == Some(s) && At(s, worker, Locked)
    requires read.HasRead? && read.version == |s.versions| - 1
    requires SnapshotOf(Current(s), read.now) == Some(read.snapshot)
    ensures t == s.(stages := s.stages[worker := read]) && Exec(rows, more, exclusive) == Some(t) && actions <= more
  {
    more, t := Extend(rows, actions, s, ReadStore(worker, read.now), exclusive);
  }

  lemma Calls(rows: seq<Composition>, actions: seq<Action>, s: State, worker: nat, read: Stage, exclusive: bool)
    returns (more: seq<Action>, t: State)
    requires s.versions != [] && Exec(rows, actions, exclusive) == Some(s) && At(s, worker, read) && read.HasRead?
    ensures t == s.(stages := s.stages[worker := Calling],
                    calls := s.calls + [Call(worker, read.version, read.now, read.snapshot)])
    ensures Exec(rows, more, exclusive) == Some(t) && actions <= more
  {
    more, t := Extend(rows, actions, s, CallProvider(worker), exclusive);
  }
}
