/**
 The durable side of pull request previews: one preview row under compare-and-swap, the compositions
 created for it, and the transactions that touch them. Controllers, API calls, webhooks, expiry and
 the reconciler commit in any order, each with whatever copy of the row it once read.
 */
module Previews {
  import opened Domain

  datatype Status =
    | WaitingBuild | Deploying | Blocked | Showing(phase: Phase)
    | Restarting | StatusStopped | Closed | Disabled | AccessRemoved | Unsupported | Expired

  type Builds = map<string, string>

  /** Everything of a preview row but its version and its composition; `feedback` stands for what GitHub was last told. */
  datatype Body = Body(
    lifecycle: nat,
    requested: bool,
    terminal: bool,
    restartBarrierAt: int,
    lastStopEventAt: int,
    requestedSHA: string,
    selectedSHA: string,
    run: (int, int),
    builds: Builds,
    status: Status,
    feedback: nat)

  /** A preview as read or returned by the store. */
  datatype Preview = Preview(version: nat, body: Body, composition: Option<string>)

  datatype PreviewComposition = PreviewComposition(generation: int, phase: Phase, deletionRequested: bool, expiresAt: int, builds: Builds)

  /** What makes a deployment request the same as an earlier one. */
  type Key = (nat, string, (int, int))

  function KeyOf(b: Body): Key {
    (b.lifecycle, b.selectedSHA, b.run)
  }

  /** `seen` holds every state the row ever had: the copies anybody may still hold. */
  datatype State = State(
    row: Option<Preview>,
    compositions: map<string, PreviewComposition>,
    keys: map<Key, string>,
    enabled: bool,
    seen: set<Preview>)

  datatype Transaction =
    | Discover(body: Body)
    | Save(copy: Preview, edited: Preview)
    | Create(claim: nat, key: Key, id: string, builds: Builds, expiresAt: int)
    | Update(claim: nat, id: string, generation: int, builds: Builds)
    | Destroy(claim: nat, id: string)
    | UserDestroy(id: string, now: int)
    | UserUpdate(id: string, builds: Builds)
    | SetPolicy(enabled: bool)
    | Reconcile(id: string, observed: PreviewComposition)

  const INITIAL := State(None, map[], map[], true, {})

  // ----- The row -----

  /** A row state, remembered. */
  function WithRow(s: State, p: Preview): State {
    s.(row := Some(p), seen := s.seen + {p})
  }

  predicate Live(s: State, id: string) {
    id in s.compositions && s.compositions[id].phase != Destroyed
  }

  /** The next lifecycle, as it starts once the previous composition is gone. */
  function Restarted(b: Body, now: int): Body {
    b.(lifecycle := b.lifecycle + 1, terminal := false, restartBarrierAt := now,
       selectedSHA := "", run := (0, 0), builds := map[], status := WaitingBuild)
  }

  /** An edit within one lifecycle: it may stop the preview or record a composition created for it, never revive it. */
  predicate Continues(s: State, copy: Preview, edited: Preview) {
    && edited.body.lifecycle == copy.body.lifecycle
    && (copy.body.terminal ==> edited.body.terminal)
    && (edited.composition == copy.composition ||
        (copy.composition.None? && edited.composition.Some? && edited.composition.value in s.compositions))
  }

  /** The one edit that starts a new lifecycle. */
  predicate Restarts(s: State, copy: Preview, edited: Preview) {
    && copy.body.terminal && copy.body.status == Restarting
    && (copy.composition.Some? ==> copy.composition.value in s.compositions && !Live(s, copy.composition.value))
    && edited.body == Restarted(copy.body, edited.body.restartBarrierAt)
    && edited.composition.None?
  }

  /** What callers of the store save: edits of a copy that they once read. */
  predicate Edits(s: State, copy: Preview, edited: Preview) {
    copy in s.seen && edited.version == copy.version && (Continues(s, copy, edited) || Restarts(s, copy, edited))
  }

  /** Compare-and-swap on the version; an edit without a difference writes nothing. */
  function Saved(s: State, p: Preview): State {
    if s.row.None? || s.row.value.version != p.version || s.row.value == p then s
    else WithRow(s, p.(version := p.version + 1))
  }

  // ----- The fence around composition writes -----

  /** The claim of a controller: exact version, and for new compute a row neither stopped nor disabled. */
  predicate Fenced(s: State, claim: nat) {
    s.row.Some? && s.row.value.version == claim && !s.row.value.body.terminal && s.enabled
  }

  function Stopped(b: Body, now: int): Body {
    b.(terminal := true, restartBarrierAt := now, status := StatusStopped)
  }

  function Doomed(c: PreviewComposition): PreviewComposition {
    if c.deletionRequested || c.phase == Destroyed then c
    else c.(generation := c.generation + 1, deletionRequested := true, phase := Destroying)
  }

  predicate Accepts(c: PreviewComposition, generation: int) {
    c.generation == generation && !c.deletionRequested && (c.phase == Ready || c.phase == Failed)
  }

  function Redeployed(c: PreviewComposition, builds: Builds): PreviewComposition {
    c.(generation := c.generation + 1, builds := builds, phase := Updating)
  }

  /** Observations and expiry move a composition forward only. */
  predicate Advances(c: PreviewComposition, observed: PreviewComposition) {
    && c.generation <= observed.generation
    && (c.deletionRequested ==> observed.deletionRequested)
    && (c.phase == Destroyed ==> observed.phase == Destroyed)
  }

  // ----- Transactions -----

  /** The state after a transaction, unchanged where it is refused or rolled back. */
  function Commit(s: State, t: Transaction): State {
    match t
    case Discover(body) =>
      if s.row.Some? || body.lifecycle != 1 || body.terminal then s else WithRow(s, Preview(1, body, None))
    case Save(copy, edited) => if Edits(s, copy, edited) then Saved(s, edited) else s
    case Create(claim, key, id, builds, expiresAt) =>
      if !Fenced(s, claim) || key in s.keys || id in s.compositions || s.row.value.composition.Some? then s
      else WithRow(s, s.row.value.(composition := Some(id))).(
        compositions := s.compositions[id := PreviewComposition(1, Created, false, expiresAt, builds)], keys := s.keys[key := id])
    case Update(claim, id, generation, builds) =>
      if !Fenced(s, claim) || id !in s.compositions || !Accepts(s.compositions[id], generation) then s
      else s.(compositions := s.compositions[id := Redeployed(s.compositions[id], builds)])
    case Destroy(claim, id) =>
      if s.row.None? || s.row.value.version != claim || id !in s.compositions then s
      else s.(compositions := s.compositions[id := Doomed(s.compositions[id])])
    case UserDestroy(id, now) =>
      if id !in s.compositions then s
      else
        var r := s.(compositions := s.compositions[id := Doomed(s.compositions[id])]);
        if s.row.Some? && s.row.value.composition == Some(id)
        then WithRow(r, Preview(s.row.value.version + 1, Stopped(s.row.value.body, now), Some(id)))
        else r
    case UserUpdate(id, builds) =>
      if id !in s.compositions || (s.row.Some? && s.row.value.composition == Some(id)) || !Accepts(s.compositions[id], s.compositions[id].generation) then s
      else s.(compositions := s.compositions[id := Redeployed(s.compositions[id], builds)])
    case SetPolicy(enabled) => s.(enabled := enabled)
    case Reconcile(id, observed) =>
      if id in s.compositions && Advances(s.compositions[id], observed) then s.(compositions := s.compositions[id := observed]) else s
  }

  /** The state after any run of transactions. */
  function Exec(ts: seq<Transaction>): State {
    if ts == [] then INITIAL else Commit(Exec(ts[..|ts| - 1]), ts[|ts| - 1])
  }

  lemma ExecAt(ts: seq<Transaction>, k: nat)
    requires k < |ts|
    ensures Exec(ts[..k + 1]) == Commit(Exec(ts[..k]), ts[k])
  {
    assert ts[..k + 1][..k] == ts[..k];
  }

  // ----- Invariant -----

  /** Versions only grow, and one version has one body, so a copy at the stored version has the stored body. */
  predicate Versioned(s: State) {
    && (s.row.Some? ==> s.row.value in s.seen)
    && (forall p :: p in s.seen ==> s.row.Some? && p.version <= s.row.value.version)
    && (forall p :: p in s.seen && p.version == s.row.value.version ==> p.body == s.row.value.body)
  }

  /** Compositions the row or its copies mention exist. */
  predicate Known(s: State) {
    && (forall p :: p in s.seen && p.composition.Some? ==> p.composition.value in s.compositions)
    && (forall k :: k in s.keys ==> s.keys[k] in s.compositions)
  }

  /** A copy of a stopped preview at the stored version names the stored composition: nothing is created for it any more. */
  predicate Frozen(s: State) {
    forall p :: p in s.seen && p.body.terminal && s.row.Some? && p.version == s.row.value.version ==>
      p.composition == s.row.value.composition
  }

  predicate Inv(s: State) {
    Versioned(s) && Known(s) && Frozen(s)
  }

  lemma CommitKeeps(s: State, t: Transaction)
    requires Inv(s)
    ensures Inv(Commit(s, t))
  {
  }

  lemma {:induction false} ExecKeeps(ts: seq<Transaction>)
    ensures Inv(Exec(ts))
  {
    if ts != [] {
      ExecKeeps(ts[..|ts| - 1]);
      CommitKeeps(Exec(ts[..|ts| - 1]), ts[|ts| - 1]);
    }
  }

  // ----- The fence holds -----

  /** A controller transaction that creates or updates compute. */
  predicate Computes(s: State, t: Transaction) {
    (t.Create? || t.Update?) && Commit(s, t).compositions != s.compositions
  }

  /** A save that starts a new lifecycle. */
  predicate Revives(s: State, t: Transaction) {
    && t.Save? && Commit(s, t) != s
    && s.row.Some? && s.row.value.body.terminal
    && Commit(s, t).row.value.body == Restarted(s.row.value.body, t.edited.body.restartBarrierAt)
  }

  /** Compute changes only under an exact claim on a preview that is neither terminal nor disabled. */
  lemma ComputesFenced(s: State, t: Transaction)
    requires Computes(s, t)
    ensures s.row.Some? && !s.row.value.body.terminal && s.enabled
    ensures s.row.value.version == t.claim
    ensures t.Create? ==> s.row.value.composition.None?
  {
  }

  /** Only the start of a new lifecycle takes a stop back. */
  lemma StopStays(s: State, t: Transaction)
    requires Inv(s) && s.row.Some? && s.row.value.body.terminal
    ensures Commit(s, t).row.Some?
    ensures Commit(s, t).row.value.body.terminal || Revives(s, t)
  {
  }

  lemma {:induction false} StopHoldsUntil(ts: seq<Transaction>, i: nat, j: nat)
    requires i <= j <= |ts| && Exec(ts[..i]).row.Some? && Exec(ts[..i]).row.value.body.terminal
    requires forall k :: i <= k < j ==> !Revives(Exec(ts[..k]), ts[k])
    ensures Exec(ts[..j]).row.Some? && Exec(ts[..j]).row.value.body.terminal
    decreases j
  {
    if i < j {
      StopHoldsUntil(ts, i, j - 1);
      ExecKeeps(ts[..j - 1]);
      ExecAt(ts, j - 1);
      StopStays(Exec(ts[..j - 1]), ts[j - 1]);
    }
  }

  /**
   In every run, between a moment at which the stored preview is stopped and a later transaction that
   creates or updates compute for it, a new lifecycle was started.
   */
  lemma NoComputeAfterStop(ts: seq<Transaction>, i: nat, j: nat)
    requires i <= j < |ts| && Exec(ts[..i]).row.Some? && Exec(ts[..i]).row.value.body.terminal
    requires Computes(Exec(ts[..j]), ts[j])
    ensures exists k :: i <= k < j && Revives(Exec(ts[..k]), ts[k])
  {
    if forall k :: i <= k < j ==> !Revives(Exec(ts[..k]), ts[k]) {
      StopHoldsUntil(ts, i, j);
      ComputesFenced(Exec(ts[..j]), ts[j]);
      assert false;
    }
  }

  // ----- Lifecycles and live compositions -----

  /** A save that lets go of a live composition: its copy is older than the link in the row. */
  predicate Unlinks(s: State, t: Transaction) {
    && t.Save? && Edits(s, t.copy, t.edited) && s.row.Some? && s.row.value.version == t.edited.version
    && s.row.value.composition.Some? && Live(s, s.row.value.composition.value)
    && t.edited.composition != s.row.value.composition
  }

  /** Every live composition of the preview is the one its row names. */
  ghost predicate Tracked(s: State) {
    forall id :: Live(s, id) ==> s.row.Some? && s.row.value.composition == Some(id)
  }

  /** A transaction loses track of a live composition exactly when it is such a save. */
  lemma TrackedExactly(s: State, t: Transaction)
    requires Inv(s) && Tracked(s)
    ensures Tracked(Commit(s, t)) <==> !Unlinks(s, t)
  {
    var r := Commit(s, t);
    if Unlinks(s, t) {
      assert Live(r, s.row.value.composition.value);
    } else {
      forall id | Live(r, id)
        ensures r.row.Some? && r.row.value.composition == Some(id)
      {
        if id in s.compositions {
          assert Live(s, id);
        }
      }
    }
  }

  /** In every run without such a save, a preview has at most one composition that is not destroyed. */
  lemma {:induction false} AtMostOneLive(ts: seq<Transaction>, a: string, b: string)
    requires forall k :: 0 <= k < |ts| ==> !Unlinks(Exec(ts[..k]), ts[k])
    requires Live(Exec(ts), a) && Live(Exec(ts), b)
    ensures a == b
  {
    RunTracked(ts);
  }

  lemma {:induction false} RunTracked(ts: seq<Transaction>)
    requires forall k :: 0 <= k < |ts| ==> !Unlinks(Exec(ts[..k]), ts[k])
    ensures Tracked(Exec(ts))
  {
    if ts != [] {
      var n := |ts| - 1;
      forall k | 0 <= k < n
        ensures !Unlinks(Exec(ts[..n][..k]), ts[..n][k])
      {
        assert ts[..n][..k] == ts[..k];
      }
      RunTracked(ts[..n]);
      ExecKeeps(ts[..n]);
      TrackedExactly(Exec(ts[..n]), ts[n]);
    }
  }

  /** The row names no composition, or one that is destroyed. */
  predicate Vacant(s: State) {
    s.row.Some? &&
    (s.row.value.composition.None? ||
     (s.row.value.composition.value in s.compositions && !Live(s, s.row.value.composition.value)))
  }

  lemma LifecycleStep(s: State, t: Transaction)
    requires Inv(s) && s.row.Some?
    ensures Commit(s, t).row.Some?
    ensures var before, after := s.row.value.body.lifecycle, Commit(s, t).row.value.body.lifecycle;
            after == before || (after == before + 1 && Revives(s, t) && Vacant(s) && Commit(s, t).row.value.composition.None?)
  {
  }

  /**
   At every transaction of every run the lifecycle stays as it is, or grows by one in the save that
   starts a new lifecycle for a preview whose stored row names no composition or a destroyed one.
   */
  lemma LifecycleGrows(ts: seq<Transaction>, k: nat)
    requires k < |ts| && Exec(ts[..k]).row.Some?
    ensures Exec(ts[..k + 1]).row.Some?
    ensures var before, after := Exec(ts[..k]).row.value.body.lifecycle, Exec(ts[..k + 1]).row.value.body.lifecycle;
            after == before || (after == before + 1 && Revives(Exec(ts[..k]), ts[k]) && Vacant(Exec(ts[..k])))
  {
    ExecKeeps(ts[..k]);
    ExecAt(ts, k);
    LifecycleStep(Exec(ts[..k]), ts[k]);
  }

  /** In every run, later lifecycles are no smaller, and once there is a row it stays. */
  lemma {:induction false} LifecycleNeverFalls(ts: seq<Transaction>, i: nat, j: nat)
    requires i <= j <= |ts| && Exec(ts[..i]).row.Some?
    ensures Exec(ts[..j]).row.Some? && Exec(ts[..i]).row.value.body.lifecycle <= Exec(ts[..j]).row.value.body.lifecycle
    decreases j
  {
    if i < j {
      LifecycleNeverFalls(ts, i, j - 1);
      LifecycleGrows(ts, j - 1);
    }
  }

  // ----- The guarantee without its condition -----

  lemma Push(ts: seq<Transaction>, t: Transaction) returns (more: seq<Transaction>)
    ensures more == ts + [t] && Exec(more) == Commit(Exec(ts), t)
  {
    more := ts + [t];
    assert more[..|more| - 1] == ts;
  }

  lemma PushSave(ts: seq<Transaction>, copy: Preview, edited: Preview) returns (more: seq<Transaction>)
    requires Edits(Exec(ts), copy, edited) && edited != copy
    requires Exec(ts).row.Some? && Exec(ts).row.value.version == copy.version && Exec(ts).row.value != edited
    ensures ts <= more && Exec(more) == WithRow(Exec(ts), edited.(version := copy.version + 1))
  {
    more := Push(ts, Save(copy, edited));
  }

  lemma PushCreate(ts: seq<Transaction>, key: Key, id: string, builds: Builds, expiresAt: int) returns (more: seq<Transaction>)
    requires Exec(ts).row.Some? && Fenced(Exec(ts), Exec(ts).row.value.version)
    requires key !in Exec(ts).keys && id !in Exec(ts).compositions && Exec(ts).row.value.composition.None?
    ensures ts <= more
    ensures var s := Exec(ts);
            Exec(more) == WithRow(s, s.row.value.(composition := Some(id))).(
              compositions := s.compositions[id := PreviewComposition(1, Created, false, expiresAt, builds)],
              keys := s.keys[key := id])
  {
    more := Push(ts, Create(Exec(ts).row.value.version, key, id, builds, expiresAt));
  }

  /** A row without a live composition can be stopped and asked to restart, whatever it is now. */
  lemma PushStop(ts: seq<Transaction>) returns (more: seq<Transaction>)
    requires Exec(ts).row.Some?
    ensures ts <= more && Exec(more).row.Some? && Exec(more).compositions == Exec(ts).compositions && Exec(more).keys == Exec(ts).keys
    ensures var b, p := Exec(ts).row.value.body, Exec(more).row.value;
            p.composition == Exec(ts).row.value.composition && p.body == b.(terminal := true, status := Restarting)
  {
    ExecKeeps(ts);
    var p := Exec(ts).row.value;
    more := Push(ts, Save(p, p.(body := p.body.(terminal := true, status := Restarting))));
  }

  /** And then restarted. */
  lemma PushRestart(ts: seq<Transaction>, now: int) returns (more: seq<Transaction>)
    requires Vacant(Exec(ts)) && Exec(ts).row.value.body.terminal && Exec(ts).row.value.body.status == Restarting
    ensures ts <= more && Exec(more).row.Some? && Exec(more).compositions == Exec(ts).compositions && Exec(more).keys == Exec(ts).keys
    ensures Exec(more).row.value.composition.None? && Exec(more).row.value.body == Restarted(Exec(ts).row.value.body, now)
  {
    ExecKeeps(ts);
    var p := Exec(ts).row.value;
    more := PushSave(ts, p, Preview(p.version, Restarted(p.body, now), None));
  }

  /** A running preview without a composition can be told to deploy a commit, under an enabled policy. */
  lemma PushIntent(ts: seq<Transaction>, sha: string, builds: Builds) returns (more: seq<Transaction>)
    requires Exec(ts).row.Some? && !Exec(ts).row.value.body.terminal && Exec(ts).row.value.body.status != Deploying
    ensures ts <= more && Exec(more).row.Some? && Exec(more).compositions == Exec(ts).compositions && Exec(more).keys == Exec(ts).keys
    ensures Exec(more).enabled && Exec(more).row.value.composition == Exec(ts).row.value.composition
    ensures Exec(more).row.value.body == Exec(ts).row.value.body.(selectedSHA := sha, builds := builds, status := Deploying)
  {
    ExecKeeps(ts);
    var p := Exec(ts).row.value;
    var open := Push(ts, SetPolicy(true));
    more := PushSave(open, p, p.(body := p.body.(selectedSHA := sha, builds := builds, status := Deploying)));
  }

  /** And gets a composition for it, if that commit was never deployed before. */
  lemma PushDeploy(ts: seq<Transaction>, sha: string, builds: Builds, b: string, expiresAt: int) returns (more: seq<Transaction>)
    requires Exec(ts).row.Some? && !Exec(ts).row.value.body.terminal && Exec(ts).row.value.composition.None?
    requires Exec(ts).row.value.body.status != Deploying && b !in Exec(ts).compositions
    requires (Exec(ts).row.value.body.lifecycle, sha, Exec(ts).row.value.body.run) !in Exec(ts).keys
    ensures ts <= more && Live(Exec(more), b)
    ensures forall id :: Live(Exec(ts), id) ==> Live(Exec(more), id)
  {
    var intent := PushIntent(ts, sha, builds);
    more := PushCreate(intent, KeyOf(Exec(intent).row.value.body), b, builds, expiresAt);
  }

  /** The save leaves the row without a live composition, and the live one where it is. */
  lemma UnlinkVacates(s: State, t: Transaction)
    requires Inv(s) && Tracked(s) && Unlinks(s, t)
    ensures Vacant(Commit(s, t)) && Commit(s, t).compositions == s.compositions && Commit(s, t).keys == s.keys
    ensures var before, after := s.row.value.body.lifecycle, Commit(s, t).row.value.body.lifecycle;
            after == before || after == before + 1
  {
  }

  /**
   The other half: wherever a run in which every live composition was tracked makes such a save, it can
   go on, by a restart and a deployment, to two live compositions: the one that the save let go of and
   the next.
   */
  lemma UnlinkedLeavesTwo(ts: seq<Transaction>, t: Transaction, sha: string, builds: Builds, b: string, now: int)
    returns (more: seq<Transaction>)
    requires Tracked(Exec(ts)) && Unlinks(Exec(ts), t) && b !in Exec(ts).compositions
    requires (Exec(ts).row.value.body.lifecycle + 1, sha, (0, 0)) !in Exec(ts).keys
    requires (Exec(ts).row.value.body.lifecycle + 2, sha, (0, 0)) !in Exec(ts).keys
    ensures ts + [t] <= more
    ensures var a := Exec(ts).row.value.composition.value;
            a != b && Live(Exec(more), a) && Live(Exec(more), b)
  {
    ExecKeeps(ts);
    var unlinked := Push(ts, t);
    ExecKeeps(unlinked);
    UnlinkVacates(Exec(ts), t);
    more := PushStop(unlinked);
    more := PushRestart(more, now);
    more := PushDeploy(more, sha, builds, b, now);
  }

  /**
   Creating a composition links it without a new version. A stop whose copy was read just before
   passes the version check and writes the old, empty link back; the composition lives on unowned,
   and after a restart a second one is created beside it.
   */
  lemma StopBehindCreateLeavesTwo(discovered: Body, sha: string, builds: Builds, a: string, b: string, now: int)
    returns (ts: seq<Transaction>)
    requires discovered.lifecycle == 1 && !discovered.terminal && sha != discovered.selectedSHA && a != b && sha != ""
    ensures Live(Exec(ts), a) && Live(Exec(ts), b)
    ensures exists k :: 0 <= k < |ts| && Unlinks(Exec(ts[..k]), ts[k])
  {
    var intent := discovered.(selectedSHA := sha, builds := builds, status := Deploying);
    var restarting := Stopped(intent, now).(status := Restarting);
    var again := Restarted(restarting, now).(selectedSHA := sha, builds := builds, status := Deploying);
    ts := Push([], Discover(discovered));
    ts := PushSave(ts, Preview(1, discovered, None), Preview(1, intent, None));
    ts := PushCreate(ts, KeyOf(intent), a, builds, now);
    ts := PushSave(ts, Preview(2, intent, None), Preview(2, Stopped(intent, now), None));
    ts := PushSave(ts, Preview(3, Stopped(intent, now), None), Preview(3, restarting, None));
    ts := PushSave(ts, Preview(4, restarting, None), Preview(4, Restarted(restarting, now), None));
    ts := PushSave(ts, Preview(5, Restarted(restarting, now), None), Preview(5, again, None));
    ts := PushCreate(ts, KeyOf(again), b, builds, now);
    if forall k :: 0 <= k < |ts| ==> !Unlinks(Exec(ts[..k]), ts[k]) {
      AtMostOneLive(ts, a, b);
    }
  }
}
