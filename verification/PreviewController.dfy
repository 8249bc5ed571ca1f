/**
 The code that drives previews: the store's transactions on its columns, and the controller and API
 operations that read a copy, edit it field by field and save it, while everybody else does the same.
 Every transaction is logged, so what holds of all runs in `Previews` holds of every moment here.
 */
module PreviewController {
  import opened Domain
  import opened Previews

  /** The pull request as fetched: open and labelled, its head commit, and whether it comes from a fork. */
  datatype PullRequest = PullRequest(requested: bool, head: string, fork: bool)

  /** A workflow run whose builds were selected, or why there is none. */
  datatype Selection = Selected(run: (int, int), builds: Builds) | NoBuilds | SelectionError

  /** What no transaction takes back: copies stay seen, compositions stay known, destruction stays. */
  predicate Grows(a: State, b: State) {
    && a.seen <= b.seen
    && a.compositions.Keys <= b.compositions.Keys
    && forall id :: id in a.compositions && !Live(a, id) ==> !Live(b, id)
  }

  lemma CommitGrows(s: State, t: Transaction)
    ensures Grows(s, Commit(s, t))
  {
  }

  /** The head that is to be deployed is still what an open, labelled pull request of the repository itself asks for. */
  predicate Deployable(current: Option<PullRequest>, sha: string) {
    current.Some? && current.value.requested && current.value.head == sha && !current.value.fork
  }

  /** The request for the stored intent of a preview. */
  function Submission(p: Preview, c: Option<PreviewComposition>, id: string, expiresAt: int): Transaction
    requires p.composition.Some? ==> c.Some?
  {
    if p.composition.None? then Create(p.version, KeyOf(p.body), id, p.body.builds, expiresAt)
    else Update(p.version, p.composition.value, c.value.generation, p.body.builds)
  }

  /** A submission of these builds for this commit and run: created where there is no composition yet, else an update of it. */
  predicate Submits(t: Transaction, p: Preview, sha: string, run: (int, int), builds: Builds, c: Option<PreviewComposition>, id: string,
                    expiresAt: int)
  {
    match p.composition
    case None => t.Create? && t.key == (p.body.lifecycle, sha, run) && t.id == id && t.builds == builds && t.expiresAt == expiresAt
    case Some(owned) => c.Some? && t.Update? && t.id == owned && t.generation == c.value.generation && t.builds == builds
  }

  /** The version under which a transaction claims the preview. */
  function ClaimOf(t: Transaction): Option<nat> {
    if t.Create? || t.Update? || t.Destroy? then Some(t.claim) else None
  }

  function Told(p: Preview, feedback: nat): Preview {
    p.(body := p.body.(feedback := feedback))
  }

  /** The composition is still on its way. */
  predicate Unsettled(c: Option<PreviewComposition>) {
    c.Some? && c.value.phase != Ready && c.value.phase != Failed
  }

  /** The stored intent is of the selected run of the requested head. */
  predicate Intends(p: Preview, selection: Selection) {
    selection.Selected? && p.body.selectedSHA == p.body.requestedSHA && p.body.run == selection.run
  }

  /** And the composition has its builds. */
  predicate Deployed(p: Preview, c: Option<PreviewComposition>, selection: Selection) {
    !Unsettled(c) && Intends(p, selection) && c.Some? && c.value.builds == p.body.builds && p.body.builds != map[]
  }

  /** The save that records the selected builds as what is to be deployed. */
  predicate Intent(t: Transaction, p: Preview, selection: Selection) {
    && selection.Selected? && t.Save? && t.copy == p && t.edited.composition == p.composition && t.edited.version == p.version
    && t.edited.body.builds == selection.builds && t.edited.body.run == selection.run
    && t.edited.body.selectedSHA == p.body.requestedSHA && t.edited.body.status == Deploying
    && t.edited.body.lifecycle == p.body.lifecycle && t.edited.body.terminal == p.body.terminal
  }

  /** For a head that is still current exactly one submission and a save of what came of it; for any other nothing. */
  predicate Submitted(p: Preview, c: Option<PreviewComposition>, current: Option<PullRequest>, sha: string, run: (int, int), builds: Builds,
                      id: string, expiresAt: int, ts: seq<Transaction>)
  {
    if Deployable(current, sha)
    then |ts| == 2 && Submits(ts[0], p, sha, run, builds, c, id, expiresAt) && ts[1].Save?
    else ts == []
  }

  /** The save that starts the next lifecycle: nothing of the last one is left but what was asked for. */
  predicate NextLifecycle(t: Transaction, p: Preview, now: int) {
    && t.Save? && t.copy == p && t.edited.version == p.version && t.edited.composition.None?
    && t.edited.body.lifecycle == p.body.lifecycle + 1 && !t.edited.body.terminal && t.edited.body.restartBarrierAt == now
    && t.edited.body.selectedSHA == "" && t.edited.body.run == (0, 0) && t.edited.body.builds == map[]
    && t.edited.body.status == WaitingBuild
    && t.edited.body.requested == p.body.requested && t.edited.body.requestedSHA == p.body.requestedSHA
  }

  /** Deletion is requested once, as a new generation; what is already deleted or destroyed stays as it is. */
  predicate Condemned(before: PreviewComposition, after: PreviewComposition) {
    if before.deletionRequested || before.phase == Destroyed then after == before
    else after == PreviewComposition(before.generation + 1, Destroying, true, before.expiresAt, before.builds)
  }

  function Appended(before: seq<Transaction>, after: seq<Transaction>): seq<Transaction> {
    if |before| <= |after| then after[|before|..] else []
  }

  class Service {
    var row: Option<Preview>
    var compositions: map<string, PreviewComposition>
    var keys: map<Key, string>
    var enabled: bool
    var seen: set<Preview>             // the copies anybody may hold
    ghost var log: seq<Transaction>
    ghost var own: seq<Transaction>    // the transactions of the operation at hand, without those of others

    function Now(): State
      reads this
    {
      State(row, compositions, keys, enabled, seen)
    }

    ghost predicate Valid()
      reads this
    {
      Now() == Exec(log) && Inv(Now())
    }

    constructor ()
      ensures Valid() && log == [] && own == []
    {
      row, compositions, keys, enabled := None, map[], map[], true;
      seen, log, own := {}, [], [];
    }

    ghost method Log(t: Transaction, mine: bool)
      requires Now() == Commit(Exec(log), t)
      modifies this`log, this`own
      ensures Valid() && log == old(log) + [t] && own == if mine then old(own) + [t] else old(own)
    {
      log := log + [t];
      assert log[..|log| - 1] == old(log);
      ExecKeeps(log);
      own := if mine then own + [t] else own;
    }

    // ----- The store -----

    /** Compare-and-swap. A conflict, or an edit without a difference, leaves everything as it was. */
    method SavePRPreview(p: Preview, ghost copy: Preview) returns (r: Option<Preview>)
      requires Valid() && Edits(Now(), copy, p)
      modifies this
      ensures Valid() && log == old(log) + [Save(copy, p)] && own == old(own) + [Save(copy, p)]
      ensures Now() == Saved(old(Now()), p) && Grows(old(Now()), Now())
      ensures row == if old(row).None? || old(row).value.version != p.version || old(row).value == p then old(row)
                     else Some(p.(version := p.version + 1))
      ensures compositions == old(compositions) && keys == old(keys) && enabled == old(enabled)
      ensures r.Some? <==> old(row).Some? && old(row).value.version == p.version
      ensures r.Some? ==> row == r && r.value.body == p.body && r.value.composition == p.composition
    {
      CommitGrows(Now(), Save(copy, p));
      r := None;
      if row.Some? && row.value.version == p.version {
        if row.value != p {
          row := Some(p.(version := p.version + 1));
          seen := seen + {row.value};
        }
        r := row;
      }
      Log(Save(copy, p), true);
    }

    /** Locks the row behind a composition write: a controller by its claim, anybody else by the link. */
    method GuardPRPreview(claim: Option<nat>, composition: string, destroys: bool, updates: bool, now: int) returns (allowed: bool)
      modifies this`row, this`seen
      ensures claim.Some? && destroys ==> (allowed <==> old(row).Some? && old(row).value.version == claim.value)
      ensures claim.Some? && !destroys ==> (allowed <==> Fenced(old(Now()), claim.value))
      ensures claim.None? ==>
                (allowed <==> !(updates && !destroys && old(row).Some? && old(row).value.composition == Some(composition)))
      ensures if claim.None? && destroys && old(row).Some? && old(row).value.composition == Some(composition)
              then Now() == WithRow(old(Now()), Preview(old(row).value.version + 1, Stopped(old(row).value.body, now), Some(composition)))
              else Now() == old(Now())
    {
      if claim.Some? {
        allowed := row.Some? && row.value.version == claim.value && (destroys || (!row.value.body.terminal && enabled));
        return;
      }
      if row.None? || row.value.composition != Some(composition) {
        return true;
      }
      allowed := destroys || !updates;
      if destroys {
        row := Some(Preview(row.value.version + 1, Stopped(row.value.body, now), row.value.composition));
        seen := seen + {row.value};
      }
    }

    /** Creates a composition under a claim and links it, or returns the one the key already made. */
    method CreateComposition(claim: nat, key: Key, id: string, builds: Builds, expiresAt: int) returns (r: Option<string>)
      requires Valid()
      modifies this
      ensures Valid() && Grows(old(Now()), Now())
      ensures log == old(log) + [Create(claim, key, id, builds, expiresAt)]
      ensures own == old(own) + [Create(claim, key, id, builds, expiresAt)]
      ensures r.Some? ==> r.value in compositions
      ensures r.Some? ==> old(Fenced(Now(), claim)) && key in keys && keys[key] == r.value
      ensures if old(row).Some? && old(row).value.version == claim && !old(row).value.body.terminal && old(enabled) &&
                 key !in old(keys) && id !in old(compositions) && old(row).value.composition.None?
              then compositions == old(compositions)[id := PreviewComposition(1, Created, false, expiresAt, builds)]
                   && keys == old(keys)[key := id] && row == Some(old(row).value.(composition := Some(id)))
              else compositions == old(compositions) && keys == old(keys) && row == old(row)
    {
      CommitGrows(Now(), Create(claim, key, id, builds, expiresAt));
      r := None;
      var allowed := GuardPRPreview(Some(claim), "", false, false, 0);
      if allowed {
        if key in keys {
          r := Some(keys[key]);
        } else if id !in compositions && row.value.composition.None? {
          compositions := compositions[id := PreviewComposition(1, Created, false, expiresAt, builds)];
          keys := keys[key := id];
          row := Some(row.value.(composition := Some(id)));
          seen := seen + {row.value};
          r := Some(id);
        }
      }
      Log(Create(claim, key, id, builds, expiresAt), true);
      var acknowledged: bool := *;
      if !acknowledged {
        r := None;
      }
    }

    method UpdateComposition(claim: nat, id: string, generation: int, builds: Builds) returns (ok: bool)
      requires Valid()
      modifies this
      ensures Valid() && Grows(old(Now()), Now())
      ensures log == old(log) + [Update(claim, id, generation, builds)]
      ensures own == old(own) + [Update(claim, id, generation, builds)]
      ensures ok ==> old(Fenced(Now(), claim)) && id in compositions && compositions[id].builds == builds
      ensures row == old(row) && keys == old(keys)
      ensures if old(row).Some? && old(row).value.version == claim && !old(row).value.body.terminal && old(enabled) &&
                 id in old(compositions) && old(compositions)[id].generation == generation && !old(compositions)[id].deletionRequested &&
                 (old(compositions)[id].phase == Ready || old(compositions)[id].phase == Failed)
              then compositions == old(compositions)[id := old(compositions)[id].(
                     generation := generation + 1, builds := builds, phase := Updating)]
              else compositions == old(compositions)
    {
      CommitGrows(Now(), Update(claim, id, generation, builds));
      ok := false;
      var allowed := GuardPRPreview(Some(claim), id, false, true, 0);
      if allowed && id in compositions && Accepts(compositions[id], generation) {
        compositions := compositions[id := Redeployed(compositions[id], builds)];
        ok := true;
      }
      Log(Update(claim, id, generation, builds), true);
      var acknowledged: bool := *;
      ok := ok && acknowledged;
    }

    method DestroyComposition(claim: nat, id: string) returns (ok: bool)
      requires Valid()
      modifies this
      ensures Valid() && Grows(old(Now()), Now())
      ensures log == old(log) + [Destroy(claim, id)] && own == old(own) + [Destroy(claim, id)]
      ensures row == old(row) && keys == old(keys) && compositions.Keys == old(compositions).Keys
      ensures old(row).Some? && old(row).value.version == claim && id in compositions ==>
                Condemned(old(compositions)[id], compositions[id])
      ensures forall other :: other in compositions && (other != id || old(row).None? || old(row).value.version != claim) ==>
                compositions[other] == old(compositions)[other]
      ensures ok ==> id in compositions && (compositions[id].deletionRequested || !Live(Now(), id))
    {
      CommitGrows(Now(), Destroy(claim, id));
      ok := false;
      var allowed := GuardPRPreview(Some(claim), id, true, false, 0);
      if allowed && id in compositions {
        compositions := compositions[id := Doomed(compositions[id])];
        ok := true;
      }
      Log(Destroy(claim, id), true);
      var acknowledged: bool := *;
      ok := ok && acknowledged;
    }

    /** A user deletes a composition; one that a preview owns stops its preview in the same transaction. */
    method UserDestroyComposition(id: string, now: int) returns (ok: bool)
      requires Valid()
      modifies this
      ensures Valid() && Grows(old(Now()), Now()) && log == old(log) + [UserDestroy(id, now)]
      ensures ok <==> id in old(compositions)
      ensures ok ==> id in compositions && (compositions[id].deletionRequested || !Live(Now(), id))
      ensures ok ==> Condemned(old(compositions)[id], compositions[id])
      ensures compositions.Keys == old(compositions).Keys
      ensures forall other :: other in compositions && other != id ==> compositions[other] == old(compositions)[other]
      ensures if ok && old(row).Some? && old(row).value.composition == Some(id)
              then row.Some? && row.value.body.terminal && row.value.body.status == StatusStopped
                   && row.value.body.restartBarrierAt == now && row.value.version == old(row).value.version + 1
                   && row.value.composition == Some(id) && row.value.body.lifecycle == old(row).value.body.lifecycle
              else row == old(row)
    {
      CommitGrows(Now(), UserDestroy(id, now));
      ok := id in compositions;
      if ok {
        var allowed := GuardPRPreview(None, id, true, false, now);
        compositions := compositions[id := Doomed(compositions[id])];
      }
      Log(UserDestroy(id, now), true);
    }

    /** Anything others commit meanwhile. */
    method Interfere()
      requires Valid()
      modifies this
      ensures Valid() && Grows(old(Now()), Now()) && own == old(own) && old(log) <= log
    {
      var steps: nat := *;
      while steps > 0
        invariant Valid() && Grows(old(Now()), Now()) && own == old(own) && old(log) <= log
      {
        var t: Transaction := *;
        var next := Commit(Now(), t);
        CommitGrows(Now(), t);
        row, compositions, keys, enabled, seen := next.row, next.compositions, next.keys, next.enabled, next.seen;
        Log(t, false);
        steps := steps - 1;
      }
    }

    // ----- The controller -----

    /** What the pull request, the installation and the policy say about a preview; `None` leaves it for a later pass. */
    static method ObservePreviewPR(b: Body, pr: Option<PullRequest>, installed: Option<bool>, policyEnabled: bool, repositoryEnabled: bool)
      returns (r: Option<Body>)
      ensures r.None? <==> pr.None? && !b.terminal && installed != Some(false) && policyEnabled && repositoryEnabled
      ensures r.Some? ==>
                (r.value.terminal <==>
                  || b.terminal || !policyEnabled || !repositoryEnabled
                  || (pr.None? && installed == Some(false))
                  || (pr.Some? && (!pr.value.requested || !b.requested || pr.value.fork)))
      ensures r.Some? ==>
                r.value.status ==
                  if !policyEnabled || !repositoryEnabled then Disabled
                  else if pr.None? then (if installed == Some(false) then AccessRemoved else b.status)
                  else if pr.value.fork then Unsupported
                  else if !pr.value.requested then Closed
                  else if !b.requested then Restarting
                  else b.status
      ensures r.Some? ==>
                r.value == b.(terminal := r.value.terminal, status := r.value.status,
                              requested := if pr.Some? then pr.value.requested else b.requested,
                              requestedSHA := if pr.Some? then pr.value.head else b.requestedSHA)
    {
      var p := b;
      if pr.None? {
        if installed == Some(false) {
          p := p.(terminal := true, status := AccessRemoved);
        }
        if !p.terminal && policyEnabled && repositoryEnabled {
          return None;
        }
      } else {
        var wasRequested := p.requested;
        p := p.(requested := pr.value.requested, requestedSHA := pr.value.head);
        if !p.requested {
          p := p.(terminal := true, status := Closed);
        } else if !wasRequested {
          p := p.(terminal := true, status := Restarting);
        }
        if pr.value.fork {
          p := p.(terminal := true, status := Unsupported);
        }
      }
      if !policyEnabled || !repositoryEnabled {
        p := p.(terminal := true, status := Disabled);
      }
      return Some(p);
    }

    /** Reads the composition of a preview; expired or deleted ones stop it. */
    method ObservePreviewComposition(p: Preview, now: int) returns (c: Option<PreviewComposition>, b: Body)
      requires Valid() && (p.composition.Some? ==> p.composition.value in compositions)
      ensures c == if p.composition.Some? then Some(compositions[p.composition.value]) else None
      ensures b.lifecycle == p.body.lifecycle && b.requested == p.body.requested
      ensures b.terminal <==> p.body.terminal || (c.Some? && (c.value.expiresAt <= now || c.value.deletionRequested))
      ensures p.body.terminal || !b.terminal ==> b == p.body
      ensures b.terminal && !p.body.terminal ==>
                if c.value.expiresAt <= now
                then b == p.body.(terminal := true, status := Expired, restartBarrierAt := c.value.expiresAt)
                else b == p.body.(terminal := true, status := StatusStopped)
    {
      c, b := None, p.body;
      if p.composition.Some? {
        c := Some(compositions[p.composition.value]);
        if c.value.expiresAt <= now && !b.terminal {
          b := b.(terminal := true, restartBarrierAt := c.value.expiresAt, status := Expired);
        }
        if c.value.deletionRequested && !b.terminal {
          b := b.(terminal := true, status := StatusStopped);
        }
      }
    }

    /** Tells GitHub about the preview and saves what came of it. */
    method PreviewFeedback(p: Preview, ghost copy: Preview) returns (ghost told: nat)
      requires Valid() && copy in seen && p.version == copy.version && Continues(Now(), copy, p)
      modifies this
      ensures Valid() && Grows(old(Now()), Now()) && old(log) <= log && own == old(own) + [Save(copy, Told(p, told))]
    {
      var feedback: nat := *;
      told := feedback;
      Interfere();
      var saved := SavePRPreview(Told(p, feedback), copy);
    }

    /** Requests deletion of the composition under the claim of the stopped preview. */
    method TearDown(p: Preview, id: string)
      requires Valid() && p in seen
      modifies this
      ensures Valid() && Grows(old(Now()), Now()) && old(own) <= own && old(log) <= log
      ensures |own| > |old(own)| && own[|old(own)|] == Destroy(p.version, id)
      ensures forall k :: |old(own)| < k < |own| ==> own[k].Save? && own[k].edited.body.lifecycle == p.body.lifecycle
    {
      var ok := DestroyComposition(p.version, id);
      if ok {
        ghost var told := PreviewFeedback(p, p);
      }
    }

    /** Starts the next lifecycle of a preview whose composition is gone, if its policy still allows. */
    method StartLifecycle(p: Preview, now: int)
      requires Valid() && Restarts(Now(), p, Preview(p.version, Restarted(p.body, now), None)) && p in seen
      modifies this
      ensures Valid() && Grows(old(Now()), Now())
      ensures |own| == |old(own)| + (if old(enabled) then 1 else 0) && old(own) <= own && old(log) <= log
      ensures old(enabled) ==> NextLifecycle(own[|old(own)|], p, now)
    {
      if enabled {
        Interfere();
        var saved := SavePRPreview(Preview(p.version, Restarted(p.body, now), None), p);
      }
    }

    /** A stopped preview: its composition is torn down first, and only then may a new lifecycle start. */
    method FinishPRPreview(p: Preview, c: Option<PreviewComposition>, now: int) returns (ghost allowed: bool)
      requires Valid() && p in seen && p.body.terminal
      requires p.composition.Some? ==> c.Some? && p.composition.value in compositions
      requires p.composition.Some? && c.value.phase == Destroyed ==> !Live(Now(), p.composition.value)
      modifies this
      ensures Valid() && Grows(old(Now()), Now()) && old(own) <= own && old(log) <= log
      ensures p.composition.Some? && c.value.phase != Destroyed ==>
                && |own| > |old(own)| && own[|old(own)|] == Destroy(p.version, p.composition.value)
                && forall k :: |old(own)| < k < |own| ==> own[k].Save? && own[k].edited.body.lifecycle == p.body.lifecycle
      ensures p.composition.None? || c.value.phase == Destroyed ==>
                if p.body.status != Restarting
                then |own| == |old(own)| + 1 && own[|old(own)|].Save? && own[|old(own)|].edited.body.lifecycle == p.body.lifecycle
                else if allowed then |own| == |old(own)| + 1 && NextLifecycle(own[|old(own)|], p, now)
                else own == old(own)
    {
      Interfere();
      allowed := enabled;
      if p.composition.Some? && c.value.phase != Destroyed {
        TearDown(p, p.composition.value);
      } else if p.body.status == Restarting {
        StartLifecycle(p, now);
      } else {
        ghost var told := PreviewFeedback(p, p);
      }
    }

    /** One create or update under the claim; `None` when it failed or its success was not reported. */
    method Submit(p: Preview, c: Option<PreviewComposition>, id: string, expiresAt: int) returns (deployed: Option<string>)
      requires Valid() && (p.composition.Some? ==> c.Some? && p.composition.value in compositions)
      modifies this
      ensures Valid() && Grows(old(Now()), Now()) && old(log) <= log && own == old(own) + [Submission(p, c, id, expiresAt)]
      ensures deployed.Some? ==> deployed.value in compositions && (p.composition.Some? ==> deployed == p.composition)
    {
      if p.composition.None? {
        deployed := CreateComposition(p.version, KeyOf(p.body), id, p.body.builds, expiresAt);
      } else {
        var ok := UpdateComposition(p.version, p.composition.value, c.value.generation, p.body.builds);
        deployed := if ok then p.composition else None;
      }
    }

    /** Records the outcome of a submission. */
    method Conclude(p: Preview, deployed: Option<string>)
      requires Valid() && p in seen
      requires deployed.Some? ==> deployed.value in compositions && (p.composition.Some? ==> deployed == p.composition)
      modifies this
      ensures Valid() && Grows(old(Now()), Now()) && old(log) <= log
      ensures |own| == |old(own)| + 1 && old(own) <= own && own[|old(own)|].Save?
      ensures own[|old(own)|].edited.composition == (if deployed.Some? then deployed else p.composition) && own[|old(own)|].copy == p
      ensures if deployed.Some? then own[|old(own)|].edited.body.status.Showing? else own[|old(own)|].edited.body.status == Blocked
    {
      if deployed.Some? {
        var phase: Phase := *;
        ghost var told := PreviewFeedback(p.(body := p.body.(status := Showing(phase)), composition := deployed), p);
      } else {
        var saved := SavePRPreview(p.(body := p.body.(status := Blocked)), p);
      }
    }

    /** Submits the stored intent under a claim on exactly the version that stored it, for a head that is still current. */
    method DeployPR(p: Preview, c: Option<PreviewComposition>, current: Option<PullRequest>, id: string, expiresAt: int)
      requires Valid() && p in seen && Known(Now())
      requires p.composition.Some? ==> c.Some?
      modifies this
      ensures Valid() && Grows(old(Now()), Now()) && old(own) <= own && old(log) <= log
      ensures |own| == |old(own)| + if Deployable(current, p.body.selectedSHA) then 2 else 0
      ensures |own| > |old(own)| ==>
                && Submits(own[|old(own)|], p, p.body.selectedSHA, p.body.run, p.body.builds, c, id, expiresAt)
                && ClaimOf(own[|old(own)|]) == Some(p.version)
                && own[|old(own)| + 1].Save? && own[|old(own)| + 1].copy == p
    {
      if Deployable(current, p.body.selectedSHA) {
        Interfere();
        var deployed := Submit(p, c, id, expiresAt);
        Interfere();
        Conclude(p, deployed);
      }
    }

    /**
     One pass over a running preview. While its composition is under way, or nothing was built, it only
     tells. Where the stored intent is of this head and run it is submitted again, unless the composition
     has exactly its builds. A new intent is stored before it is submitted.
     */
    method AdvancePRPreview(p: Preview, c: Option<PreviewComposition>, selection: Selection, current: Option<PullRequest>,
                            id: string, expiresAt: int)
      requires Valid() && p in seen
      requires p.composition.Some? <==> c.Some?
      modifies this
      ensures Valid() && Grows(old(Now()), Now()) && old(own) <= own && old(log) <= log
      ensures Unsettled(c) || selection.NoBuilds? || Deployed(p, c, selection) ==> |own| == |old(own)| + 1 && own[|old(own)|].Save?
      ensures !Unsettled(c) && selection.SelectionError? ==> own == old(own)
      ensures !Unsettled(c) && Intends(p, selection) && !Deployed(p, c, selection) ==>
                Submitted(p, c, current, p.body.selectedSHA, p.body.run, p.body.builds, id, expiresAt, Appended(old(own), own))
      ensures !Unsettled(c) && selection.Selected? && !Intends(p, selection) ==>
                && |own| > |old(own)| && Intent(own[|old(own)|], p, selection)
                && (if old(row).Some? && old(row).value.version == p.version
                    then Submitted(p, c, current, p.body.requestedSHA, selection.run, selection.builds, id, expiresAt, Appended(old(own), own)[1..])
                    else |own| == |old(own)| + 1)
    {
      var q := if c.Some? then p.(body := p.body.(status := Showing(c.value.phase))) else p;
      if c.Some? && c.value.phase != Ready && c.value.phase != Failed {
        ghost var told := PreviewFeedback(q, p);
      } else if selection.NoBuilds? {
        var waiting: bool := *;
        ghost var told := PreviewFeedback(if waiting then q.(body := q.body.(status := WaitingBuild)) else q, p);
      } else if selection.Selected? {
        if q.body.selectedSHA == q.body.requestedSHA && q.body.run == selection.run {
          if c.None? || c.value.builds != q.body.builds || q.body.builds == map[] {
            DeployPR(p, c, current, id, expiresAt);
            assert Appended(old(own), own) == own[|old(own)|..];
          } else {
            ghost var told := PreviewFeedback(q, p);
          }
        } else {
          StoreIntent(q, p, c, selection, current, id, expiresAt);
        }
      }
    }

    method StoreIntent(q: Preview, ghost p: Preview, c: Option<PreviewComposition>, selection: Selection,
                       current: Option<PullRequest>, id: string, expiresAt: int)
      requires Valid() && p in seen && q == p.(body := p.body.(status := q.body.status)) && selection.Selected?
      requires p.composition.Some? <==> c.Some?
      modifies this
      ensures Valid() && Grows(old(Now()), Now()) && old(own) <= own && old(log) <= log
      ensures |own| > |old(own)| && Intent(own[|old(own)|], p, selection)
      ensures if old(row).Some? && old(row).value.version == p.version
              then Submitted(p, c, current, p.body.requestedSHA, selection.run, selection.builds, id, expiresAt, Appended(old(own), own)[1..])
              else |own| == |old(own)| + 1
    {
      var intent := q.(body := q.body.(builds := selection.builds, selectedSHA := q.body.requestedSHA, run := selection.run, status := Deploying));
      var saved := SavePRPreview(intent, p);
      if saved.Some? {
        DeployPR(saved.value, c, current, id, expiresAt);
      }
    }

    /** The second half of a pass: finish a stopped preview or advance a running one. */
    method Proceed(p: Preview, c: Option<PreviewComposition>, now: int, id: string)
      requires Valid() && p in seen && (p.composition.Some? <==> c.Some?)
      requires p.composition.Some? ==> p.composition.value in compositions
      requires p.composition.Some? && c.value.phase == Destroyed ==> !Live(Now(), p.composition.value)
      modifies this
      ensures Valid() && Grows(old(Now()), Now()) && old(own) <= own && old(log) <= log
      ensures p.body.terminal ==> forall k :: |old(own)| <= k < |own| ==> own[k].Save? || own[k].Destroy?
      ensures !p.body.terminal ==> forall k :: |old(own)| <= k < |own| ==> !own[k].Destroy?
      ensures p.body.terminal && c.Some? && c.value.phase != Destroyed ==>
                |own| > |old(own)| && own[|old(own)|] == Destroy(p.version, p.composition.value)
      ensures !p.body.terminal && Unsettled(c) ==> |own| == |old(own)| + 1
    {
      if p.body.terminal {
        ghost var allowed := FinishPRPreview(p, c, now);
      } else {
        var selection: Selection, current: Option<PullRequest>, expiresAt: int := *, *, *;
        Interfere();
        AdvancePRPreview(p, c, selection, current, id, expiresAt);
      }
    }

    /** One pass over one preview: compute is touched only for a wanted preview under an enabled policy. */
    method ReconcilePR(p: Preview, policyEnabled: bool, now: int, id: string) returns (deferred: bool)
      requires Valid() && p in seen
      modifies this
      ensures Valid() && Grows(old(Now()), Now()) && old(own) <= own && old(log) <= log
      ensures forall k :: |old(own)| <= k < |own| && (own[k].Create? || own[k].Update?) ==>
                !p.body.terminal && p.body.requested && policyEnabled
      ensures deferred ==> own == old(own) && !p.body.terminal && policyEnabled
      ensures !deferred ==> |own| > |old(own)| && own[|old(own)|].Save? && own[|old(own)|].copy == p
    {
      var pr: Option<PullRequest>, installed: Option<bool>, repositoryEnabled: bool := *, *, *;
      var body := ObservePreviewPR(p.body, pr, installed, policyEnabled, repositoryEnabled);
      deferred := body.None?;
      if body.Some? {
        Interfere();
        var c, observed := ObservePreviewComposition(p.(body := body.value), now);
        ghost var at: nat;
        var saved: Option<Preview>;
        saved, at := SaveAndProceed(p, c, observed, now, id);
      }
    }

    method SaveAndProceed(p: Preview, c: Option<PreviewComposition>, observed: Body, now: int, id: string)
      returns (saved: Option<Preview>, ghost at: nat)
      requires Valid() && p in seen && (p.composition.Some? <==> c.Some?)
      requires observed.lifecycle == p.body.lifecycle && (p.body.terminal ==> observed.terminal)
      requires p.composition.Some? ==> p.composition.value in compositions && compositions[p.composition.value] == c.value
      modifies this
      ensures Valid() && Grows(old(Now()), Now()) && old(own) <= own && old(log) <= log
      ensures |own| > |old(own)| && own[|old(own)|] == Save(p, p.(body := observed))
      ensures observed.terminal ==> forall k :: |old(own)| <= k < |own| ==> own[k].Save? || own[k].Destroy?
      ensures !observed.terminal ==> forall k :: |old(own)| <= k < |own| ==> !own[k].Destroy?
      ensures |old(log)| <= at < |log| && log[at] == Save(p, p.(body := observed))
      ensures saved.Some? <==> Exec(log[..at]).row.Some? && Exec(log[..at]).row.value.version == p.version
      ensures saved.None? ==> |own| == |old(own)| + 1
      ensures saved.Some? && observed.terminal && c.Some? && c.value.phase != Destroyed ==>
                |own| > |old(own)| + 1 && own[|old(own)| + 1] == Destroy(saved.value.version, p.composition.value)
      ensures saved.Some? && !observed.terminal && Unsettled(c) ==> |own| == |old(own)| + 2
    {
      Interfere();
      at := |log|;
      ghost var before := log;
      saved := SavePRPreview(p.(body := observed), p);
      assert log[..at] == before;
      if saved.Some? {
        Proceed(saved.value, c, now, id);
      }
      assert log[..at] == before;
    }

    // ----- The API and webhooks -----

    /** Stops or restarts a preview on request; restarting tears the old composition down first. */
    method ControlPRPreview(stop: bool, restartable: bool, now: int) returns (ok: bool)
      requires Valid()
      modifies this
      ensures Valid() && Grows(old(Now()), Now())
      ensures old(own) <= own
      ensures if old(row).Some? && (stop || (restartable && old(enabled)))
              then |own| == |old(own)| + 1 && own[|old(own)|].Save? && own[|old(own)|].copy == old(row).value
                   && own[|old(own)|].edited.body.terminal
                   && own[|old(own)|].edited.body.status == (if stop then StatusStopped else Restarting)
              else own == old(own) && !ok
      ensures ok ==> row.Some? && row.value.body.terminal
      ensures ok && stop ==> row.value.body.status == StatusStopped && row.value.body.restartBarrierAt == now
      ensures ok && !stop ==> restartable && row.value.body.status == Restarting
    {
      ok := row.Some? && (stop || (restartable && enabled));
      if ok {
        var p := row.value;
        Interfere();
        var q := p.(body := if stop then Stopped(p.body, now) else p.body.(terminal := true, status := Restarting));
        var saved := SavePRPreview(q, p);
        ok := saved.Some?;
      }
    }
  }
}
