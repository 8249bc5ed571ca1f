# Envy, verified

A Dafny model of the hard parts of Envy, a control plane for preview environments, with proofs about
every run of its protocols and every input of its algorithms.

## What is modelled

- **The reconciler.** `Reconciler` drives one composition through provisioning, publication, update,
  retirement and teardown. Every store write and provider call is a method of its own with an arbitrary
  outcome; between any two of them other workers, the API, expiry and the clock may move, and the process
  may crash. What happens to the outside world is recorded as a `History`. `Safe` says of a history that
  every event was permitted by the events before it; the type `World.World` carries the invariant behind
  it, so it holds at every moment of every run. The lemmas of `History` spell out what the rules mean.
  `Passes`, `SafePasses`, `Runs` and `Retirement` follow one composition call by call to where its
  retirement promise ends.
- **The route table.** `RouteTable` builds the aggregate snapshot, and `RouteEntries` says entry by entry,
  from the stored rows alone, where it leads; `RouteLock` lets any number of workers
  share it; `RouteCycle` is the reuse of a snapshot within one scan.
- **Previews.** `Previews` is a transition system of database transactions over one preview row and the
  compositions created for it; `PreviewController` is the code that issues them; `StopEvents` applies
  webhook deliveries.
- **Dependency graphs.** `ExecutionGraph` and `DiagnosisOrder` are the two depth-first searches, with
  `Dependencies` for what they share.
- **Message isolation and headers.** `Filters`, `Messaging`, with its rules told by the texts themselves in
  `MessagingRules`, and `Baggage`.
- **JSON pointers.** `JsonPointer`, on `Slashes`.

`Domain` holds the records and `Ordering` the sorting that several modules use.

## Results that bound the promises

Two things the design promises are not true of the code in every run. For each, the exact condition is
proved together with runs that break it.

1. *A preview has at most one live composition.* Creating a composition links it to its preview without
   a new version, so a copy read just before still passes the version check and writes an empty link back
   (`Previews.StopBehindCreateLeavesTwo`). Track is lost exactly by a save of that kind
   (`Previews.TrackedExactly`). Without one the promise holds in every run (`Previews.AtMostOneLive`), and
   every run that makes one can go on to two live compositions (`Previews.UnlinkedLeavesTwo`).
2. *A retired workload outlives its route by a drain.* In every run this holds of every deletion, but for
   two kinds of updates (`History.WorkloadDeletedAfterDrain`). Both can be told before they are accepted,
   and for both there are runs from the creation of a composition that break the promise.
   - All retiring workloads share one deadline. After a failed pass an update may drop another component
     while a deadline runs, or take a retiring one back (`Retirement.DropRun`, `Retirement.ReaddRun`). Where
     the deadline passes before the next pass, that pass keeps the promise if and only if the update does
     neither (`Retirement.DrainKeptExactly`).
   - A selection without an endpoint, on a baseline whose verification is `none`, is deployed without
     touching the route table, and what it replaces is deleted at once (`Retirement.DetachRun`). The next
     pass keeps the promise if and only if all that goes was never routed, or has been out for a drain
     (`Retirement.DetachKeptExactly`).

   After either, the promise is in force again as soon as a row is stored that has nothing of it left.

A smaller third one: *what is declared as a topic names a topic*. A name is looked at for the word between
two slashes, which the project of a subscription may be as well (`MessagingRules.SubscriptionAsTopic`); the
exact condition is in `MessagingRules.KindExactly`.

A fourth one holds of the ids that the platform issues: *an ingress header selects one composition*
(`Baggage.IssuedSelectsOne`). The exact condition on an id is that it has no comma, no semicolon and no
blank at its ends (`Baggage.SelectsOneExactly`); `Baggage.HeardSelected` says what other ids select.

Three smaller lemmas beside the results show why the code is as it is: two workers that sync without
the lock bring a deleted ingress entry back (`RouteLock.UnlockedSyncRevives`), a cache that kept its
snapshot across a failed call would accept a mixture (`RouteCycle.ForgettingMatters`), and the two
replacements in a pointer token must come in their order (`JsonPointer.OrderMatters`).

## Assumptions

- One leader at a time and one worker for each composition; other workers act on other compositions and
  share the route lock. A crash or lost leadership ends a pass without another write.
- The clock does not run backwards. Time and durations are integers in one unit.
- A provider that reports a snapshot ready runs with that snapshot until it is offered another one;
  drift caused from outside Envy is not part of this model.
- The store of `RouteLock` never takes a deletion or a route removal back; `History.NeverTakenBack` proves
  it of the rows that the reconciler and the API write.
- The passes of `Passes` and the runs of `Runs` are those of a composition that is alone, not isolated and
  without a baseline observer, and whose calls are answered as said there; they are made of the rows,
  saves and syncs of `Reconciler`, in the order in which one pass makes them.
- Stored rows always have a published selection, possibly empty, as `internal/persistence/postgres/store.go:116`
  restores it, so the fallback to the desired selection never applies.
- Digests and random identities are parameters: an execution's hash is any function of profile and image,
  a subscription's name any function of its identity, a new composition's id is not in use. Where names
  must differ, the digest gives the consumers of one baseline different texts of forty characters.
- Characters stand for bytes where the code measures bytes, and strings compare byte by byte.
- The composition id in a subscription filter needs no quoting, which is what issued ids look like.

## Model

| member | source | states |
|---|---|---|
| RouteTable.BuildSnapshot | internal/reconciler/reconciler.go:772-848 | The loops over rows, components and entries build exactly the snapshot that the row-by-row specification `SnapshotOf` gives, errors included. |
| RouteTable.AddComposition | internal/reconciler/reconciler.go:776-844 | One row contributes what is decided from that row alone, or fails the whole snapshot. |
| RouteTable.AddComponents | internal/reconciler/reconciler.go:789-811 | Domains and mesh entries of the published components in name order; a missing profile or a foreign workload reference is an error. |
| RouteTable.SnapshotCanonical | internal/reconciler/reconciler.go:773-775 | Every permutation of the same distinct-id rows gives the identical result. |
| RouteTable.SnapshotLocal | internal/reconciler/reconciler.go:776-844 | The entries of a composition in the aggregate are exactly those its own row contributes, whatever the other rows are. |
| RouteTable.SnapshotForgets | internal/reconciler/reconciler.go:776-844 | A composition that is not among the rows has no entry. |
| RouteTable.SnapshotSays | internal/reconciler/reconciler.go:789-815 | A snapshot has mesh entries for exactly the published endpoint components of an active, unremoved row, and an ingress entry exactly when that row is also not deleted and not expired. |
| RouteTable.IngressNeedsMesh | internal/reconciler/reconciler.go:801-835 | A composition with an ingress entry has a mesh entry for each of its published endpoint components. |
| RouteTable.MeshStaysHome | internal/reconciler/reconciler.go:805-810 | Mesh entries lead only to published workloads of the composition in its own namespace, under its own ownership token. |
| RouteEntries.NamespaceText | internal/domain/model.go:212 | The namespace of a composition is a fixed prefix and its id with hyphens for underscores. |
| RouteEntries.BuiltExactly | internal/reconciler/reconciler.go:772-848 | A snapshot is built exactly if every row has a plan, its own profile for each published component, its own recorded workload for each one that is routed and, while it takes requests, an endpoint host and, with a preview selector, a baseline host. |
| RouteEntries.IngressEntry | internal/reconciler/reconciler.go:816-844 | A composition that takes requests has exactly one ingress entry: on its own host, in the domain of the entry component, leading to the recorded workload and the profile's port where the plan has a profile of that component, and to the baseline's own host and port otherwise; with a preview selector the same entry stands on the baseline's host, without one there is none; and any other composition has neither. |
| RouteEntries.MeshEntries | internal/reconciler/reconciler.go:789-811 | While a composition is in the mesh, its entries divert exactly its published components that serve requests, each once and in name order, from the domain of that component to its workload in the composition's namespace at the profile's port; otherwise it has none. |
| RouteEntries.DomainsExactly | internal/reconciler/reconciler.go:795-800 | The domains are exactly those of published components that serve requests, also of rows whose routes are gone. |
| RouteEntries.OwnersKnown | internal/reconciler/reconciler.go:777 | The table knows the ownership token of every row. |
| RouteEntries.OwnersStored | internal/reconciler/reconciler.go:776-777 | It knows no other composition. |
| RouteEntries.EntriesInOrder | internal/reconciler/reconciler.go:774-776 | Mesh, ingress and selector entries come in the order of the composition ids. |
| Ordering.SortedUnique | internal/reconciler/reconciler.go:775 | An ordered permutation is unique where keys identify elements, so any correct library sort gives the same snapshot. |
| Ordering.LeqExactly | internal/reconciler/reconciler.go:775 | The order of the sorts is the one where the first difference decides and a prefix comes first. |
| History.NamespaceDeletedAfterWithdrawal | internal/reconciler/reconciler.go:895-960 | In every safe run, whenever the namespace is deleted the provider had accepted a snapshot without the composition's ingress and one without its mesh entries, and was offered neither since. |
| History.MeshWithdrawnAfterDrain | internal/reconciler/reconciler.go:903-935 | In every safe run, once the stored row is deleted, a snapshot that takes a component of its stored selection out of the mesh comes only a full drain after an absence check made behind an accepted ingress withdrawal that was never undone. |
| History.OfferedWasStored | internal/reconciler/reconciler.go:772-815 | In every safe run, every snapshot offered to the provider says of the composition what a row that was stored before asks for: its mesh exactly, and no ingress once it is deleted. |
| History.WorkloadDeletedAfterDrain | internal/reconciler/reconciler.go:529-556 | In every safe run, unless an update undercut a retirement, or a selection without endpoints was accepted with something at stake, and the stored row has not been settled since, a retired workload is deleted only while the stored selection excludes it, and a full drain after the provider accepted a snapshot without its route, never offered again; or, where some selection needed no routes, because it was never routed. |
| History.ReadyMeansChecked | internal/reconciler/reconciler.go:566-604 | A stored row with a ready endpoint has phase ready, published selection equal to the desired one, nothing retiring, no error, every workload good, and a passed check of its generation with one baseline fingerprint before, after and in the row. |
| History.CheckMeans | internal/reconciler/reconciler.go:566-572 | What the latest check summarises: a verification event and the baseline observations just before and after it. |
| History.ExecutionReplacedOnlyIdle | internal/reconciler/reconciler.go:374-401 | Over every pair of moments of a safe run, a stored execution stays stored, and its id changes only by a save that found it neither pending nor running, nor a ready schedule. |
| History.EnsuredExecutionStored | internal/reconciler/reconciler.go:385-401 | Every request for a job carries an execution id, and that id is already in the stored row. |
| History.IsolationKept | internal/reconciler/reconciler.go:298-358 | In every safe run of an isolated composition its subscriptions exist while any workload may. |
| History.SubscriptionsRecordedFirst | internal/reconciler/reconciler.go:298-358 | At every request for a workload of an isolated composition, the first included, every planned subscription exists and is already stored as ready. |
| History.NeverTakenBack | internal/persistence/postgres/store.go:351-406 | In every safe run, later rows keep the isolation, the resolved profiles, the baseline, the deletion, the intention to route and the route removal of earlier ones. |
| History.DestroyedMeansGone | internal/reconciler/reconciler.go:962-994 | A row is stored as destroyed only with routes withdrawn, workloads confirmed absent and, when isolated, subscriptions deleted. |
| World.UpdateKept | internal/persistence/postgres/store.go:629-673 | An accepted update at any moment keeps the invariant of the world and every fact a worker relies on. |
| World.DeleteKept | internal/persistence/postgres/store.go:464-486 | So does a deletion requested by a client or by expiry. |
| World.UpdateSays | internal/persistence/postgres/store.go:629-673 | An update desires exactly the new selection, keeps baseline, subscriptions and resolved profiles, adds only profiles that were not there, starts the provisioning time, takes readiness back and touches no runtime state. |
| World.DeleteSays | internal/persistence/postgres/store.go:464-486 | A deletion is a new generation that takes readiness back, makes the next pass due and changes neither selection nor plan nor runtime state. |
| World.ActiveSays | internal/persistence/postgres/store.go:330-349 | A scan returns every row but a destroyed one, each once. |
| World.ReadSays | internal/reconciler/reconciler.go:859-867 | A snapshot read under the lock says of the composition exactly what its stored row says at that moment. |
| World.OfferKept | internal/reconciler/reconciler.go:880 | Offering a snapshot read earlier keeps every withdrawal already relied on, although the row may have moved since. |
| World.AcceptKept | internal/reconciler/reconciler.go:880-890 | After acceptance, whatever the snapshot and the stored row both exclude is out of the provider and cannot come back by itself. |
| World.SaveKept | internal/persistence/postgres/store.go:351-406 | Saving a lawful observation keeps every stored deadline backed by the history, and no route of the stored selection uncovered by a read that is still to be offered. |
| Reconciler.Reconciler.constructor | internal/reconciler/reconciler.go:76-94 | A run starts from a freshly created row with nothing routed, retiring or removed. |
| Reconciler.Reconciler.SaveObservation | internal/persistence/postgres/store.go:351-406 | Writes the whole copy, or reports it stale exactly where generation or deletion moved and then writes nothing; an error may hide a committed write; only rows with backed readiness, idle replacements and complete destruction may be saved. |
| Reconciler.Reconciler.SyncRoutes | internal/reconciler/reconciler.go:852-893 | After success the provider runs without any component the stored selection excludes; for a deleted row without ingress; and without mesh once its routes are removed. |
| Reconciler.Reconciler.CallProvider | internal/reconciler/reconciler.go:869-893 | An accepted snapshot withdraws what the stored row has given up; a failed or pending one promises nothing. |
| Reconciler.Reconciler.ReadRoutes | internal/reconciler/reconciler.go:853-867 | The route lock is held and the snapshot is the one of all stored rows at that moment, from the row the worker last stored, or one that only the API has moved. |
| Reconciler.Reconciler.Drain | internal/reconciler/reconciler.go:903-924 | The endpoint is probed first; without a deadline one is set a full drain ahead, behind a closed ingress confirmed absent, and with one the drain is over exactly when it has passed. |
| Reconciler.Reconciler.RemoveRoutes | internal/reconciler/reconciler.go:926-935 | Route removal is stored before a table without the routes is accepted. |
| Reconciler.Reconciler.AgreeNamespace | internal/reconciler/reconciler.go:936-956 | Accepts exactly the workload inventories that agree on namespace, token and identity, and yields the identity they share. |
| Reconciler.Reconciler.RemoveOwned | internal/reconciler/reconciler.go:936-985 | The namespace is asked for under the agreed identity; then subscriptions, then the destroyed phase, each only after the one before is confirmed; otherwise the next attempt is due in an interval. |
| Reconciler.Reconciler.Destroy | internal/reconciler/reconciler.go:895-994 | One pass over a deleted row ends in a running drain or with the namespace asked for; a destroyed phase implies that nothing of the composition is left. |
| Reconciler.Reconciler.BeginPass | internal/reconciler/reconciler.go:252-270 | A pass starts provisioning or updating, with every endpoint there and not ready, a running operation unless it had succeeded, and nothing else changed. |
| Reconciler.Reconciler.ObserveBaseline | internal/reconciler/reconciler.go:674-695 | Records the fingerprint seen, or reports that the pass must wait. |
| Reconciler.Reconciler.EnsureMessaging | internal/reconciler/reconciler.go:298-358 | On success every planned subscription exists and is stored as ready before any workload is asked for. |
| Reconciler.Reconciler.PrepareExecution | internal/reconciler/reconciler.go:374-401 | On success the stored execution is of the current specification; one that already is stays as it is, and a busy one of another specification is an error that changes nothing. |
| Reconciler.Reconciler.EnsureWorkload | internal/reconciler/reconciler.go:403-456 | One request with the stored execution id; the copy then has the reported reference, execution state and status of exactly that component. |
| Reconciler.Reconciler.EnsureComponents | internal/reconciler/reconciler.go:360-458 | Asks for every override exactly once and for nothing else; the tally says exactly what the answers say: all ready, all completed, some suspended, some awaited, an endpoint to route, some failed, some without a report. |
| Reconciler.Reconciler.Await | internal/reconciler/reconciler.go:461-494 | Only suspended schedules missing: settled; otherwise the routes are synced while routing is active, and a pass without error means no failure, no missing report and time left to provision. |
| Reconciler.Reconciler.PublishSelection | internal/reconciler/reconciler.go:532-549 | The desired selection is stored as published, with exactly the recorded workloads of components that left it moved to what retires, before it is routed. |
| Reconciler.Reconciler.PublishRoutes | internal/reconciler/reconciler.go:517-556 | After success routing is active, the stored selection is the desired one, what left it retires, and the provider runs without any other component. |
| Reconciler.Reconciler.Reobserve | internal/reconciler/reconciler.go:566-572 | A passed check counts only if the baseline did not move meanwhile. |
| Reconciler.Reconciler.Doubt | internal/reconciler/reconciler.go:588-600 | A failed check is tolerated exactly before the operation succeeded and within the provisioning time. |
| Reconciler.Reconciler.VerifyRouting | internal/reconciler/reconciler.go:558-613 | Verified means routed, and a passed check of this generation on an unmoved baseline, stored as evidence; a pass without error that is not verified has stored a failed check, tolerated before the operation succeeded. |
| Reconciler.Reconciler.Retire | internal/reconciler/reconciler.go:615-647 | Without a deadline one is set a full drain ahead; before it nothing is deleted; after it each retired workload is asked for once, up to one that is not absent yet, and the deadline goes with the last. |
| Reconciler.Reconciler.RetireEndpointFree | internal/reconciler/reconciler.go:697-731 | Without an endpoint to route the selection is stored first and what left it is deleted at once. |
| Reconciler.Reconciler.Serve | internal/reconciler/reconciler.go:517-669 | Endpoints are reported ready only after routing, verification and retirement, and a pass without error ends in exactly one of three ways: a tolerated failed check, a retirement that goes on, or every endpoint ready. |
| Reconciler.Reconciler.Step | internal/reconciler/reconciler.go:239-670 | One pass leaves a copy that may be saved, whatever failed and wherever it stopped; without an error a deleted row drains or its namespace was asked for, and a wanted one ends as the runtime's answers say. |
| Reconciler.Reconciler.Report | internal/reconciler/reconciler.go:174-191 | A failure, or routes pending for longer than the provisioning time, is recorded; any other outcome leaves the pass's copy, without an error unless it was done; a ready row after an event is looked at again in thirty seconds, one whose next attempt has come in an interval. |
| Reconciler.Reconciler.Reconcile | internal/reconciler/reconciler.go:149-192 | A pass that is due, or an event without failed attempts, runs and is written; any other changes nothing. |
| Reconciler.Reconciler.Run | internal/reconciler/reconciler.go:120-147 | Every run of passes, API writes, other workers, time and crashes keeps the whole history safe. |
| Reconciler.Reconciler.Interfere | internal/reconciler/queue.go:53-70 | Whatever others do in between keeps the copy valid and every fact that only this worker changes; under the route lock nobody else's snapshot moves. |
| Reconciler.Reconciler.MoveRows | internal/persistence/postgres/store.go:408-711 | The row changes only by an accepted update, of a ready or failed, unexpired row, or by one deletion, and every change is a new generation. |
| Reconciler.Reconciler.OfferRoutes | internal/reconciler/reconciler.go:880 | The provider sees the snapshot read under the lock. |
| Reconciler.Reconciler.AcceptRoutes | internal/reconciler/reconciler.go:884-890 | An accepted snapshot shuts out what the stored row excludes. |
| Reconciler.Reconciler.ConfirmAbsent | internal/reconciler/reconciler.go:908-911 | A confirmed absence behind a closed ingress starts or continues the quiet period. |
| Reconciler.Reconciler.Withdraw | internal/reconciler/reconciler.go:903-935 | A routed composition leaves the mesh one stage a pass: absence, drain, removal. |
| Reconciler.Reconciler.DeleteNamespace | internal/reconciler/reconciler.go:936-966 | Asked for under the identity on which all recorded workloads agree, behind withdrawn routes, and then looked for; confirmed absence means no workload can exist. |
| Reconciler.Reconciler.DeleteSubscriptions | internal/reconciler/reconciler.go:968-985 | Subscriptions go only once the workloads are confirmed absent. |
| Reconciler.Reconciler.MarkDestroyed | internal/reconciler/reconciler.go:987-992 | The phase is destroyed, the error gone and the operation succeeded, with the runtime state as it was. |
| Reconciler.Reconciler.EnsureSubscriptions | internal/reconciler/reconciler.go:309-343 | A subscription that is not ready fails the pass, and what was observed is kept. |
| Reconciler.Reconciler.StartExecution | internal/reconciler/reconciler.go:378-384 | The new execution is stored when the call succeeds. |
| Reconciler.Reconciler.EnsureComponent | internal/reconciler/reconciler.go:360-458 | One component: a missing profile fails the pass, otherwise one request, whose answer joins the tally. |
| Reconciler.SumsMore | internal/reconciler/reconciler.go:410-456 | One more answer changes the tally to exactly that of all answers. |
| Reconciler.Reconciler.ActivateRouting | internal/reconciler/reconciler.go:518-526 | The intention to route is in the copy, and stored before the first shared route is written. |
| Reconciler.Reconciler.Probe | internal/reconciler/reconciler.go:565 | One verification of the published routes on the baseline last seen. |
| Reconciler.Reconciler.Confirm | internal/reconciler/reconciler.go:574-592 | The evidence of a passed check, with its generation and baseline. |
| Reconciler.Reconciler.StartRetirement | internal/reconciler/reconciler.go:616-621 | The drain deadline lies a full drain after routes that exclude everything retiring. |
| Reconciler.Reconciler.DeleteRetired | internal/reconciler/reconciler.go:628-646 | Due workloads are asked for once each until one is not absent; exactly the absent ones leave the inventory, and the deadline goes with the last. |
| Reconciler.Reconciler.SettleEndpointFree | internal/reconciler/reconciler.go:495-515 | The selection is published; what retires goes on retiring, or else the composition is completed or ready without an error. |
| Reconciler.Reconciler.Deploy | internal/reconciler/reconciler.go:360-669 | A pass without error ends as the answers of the runtime say: suspended, waiting without a failure, settled without routes, or served. |
| Reconciler.EndsAsSummed | internal/reconciler/reconciler.go:461-669 | How a pass ends by its tally is how it ends by the answers themselves. |
| Reconciler.Reconciler.Prepare | internal/reconciler/reconciler.go:272-358 | A deployment starts exactly with a plan, a known baseline, at most three overrides and, when isolated, stored subscriptions; no other part of the copy changes. |
| Reconciler.Reconciler.Finish | internal/reconciler/reconciler.go:649-669 | Every endpoint is there with its host and ready, the phase is ready, the desired selection published, the error gone, the operation succeeded, the attempts back to zero and the next pass due in an interval; nothing else changes. |
| Reconciler.Reconciler.Fail | internal/reconciler/reconciler.go:1007-1038 | Every endpoint is there and not ready, the error is stored, the phase is failed unless the row is deleted, there is one more attempt, and a succeeded operation stays so. |
| Retirement.DrainKeptExactly | internal/reconciler/reconciler.go:529-647 | From every moment with a retirement deadline that the history backs and that passes before the next pass: everything that this pass has to delete has outlived its route by a full drain if and only if the update neither takes a retiring component back nor drops a published one. |
| Retirement.ExpiresBacked | internal/reconciler/reconciler.go:517-647 | Runs from creation lead to such moments: a shrunk selection, a deadline that has passed and that the history backs, and an update that is accepted again. |
| Retirement.GoesLive | internal/reconciler/reconciler.go:239-669 | From the creation of any composition that can be served the first pass stores a row that is ready, with every endpoint ready on the desired selection, and the history of that run is safe. |
| Retirement.ReadyExample | internal/reconciler/reconciler.go:239-669 | Such a run exists for one to three web components. |
| Retirement.DetachKeptExactly | internal/reconciler/reconciler.go:697-731 | Where the new selection needs no routes: everything that the next pass has to delete has outlived its route if and only if the update takes no retiring component back, and neither drops nor finds retiring one that was ever routed and has not been out for a full drain. |
| Retirement.NothingAtStake | internal/reconciler/reconciler.go:697-731 | Where an update leaves no deadline set and only components that serve no requests to retire, none of those was ever routed. |
| Retirement.DeadlineShared | internal/reconciler/reconciler.go:532-547 | The next pass has what left the selection retire under the deadline that is already there, out of the provider only since now. |
| Retirement.DroppedWithoutDrain | internal/reconciler/reconciler.go:615-647 | Wherever a deadline ends less than a drain from now, the next pass has a routed component that left the selection deletable before its drain is over. |
| Retirement.ReaddedIsDeleted | internal/reconciler/reconciler.go:532-645 | Wherever a retiring component is desired again after its deadline, the next pass may delete it while it is published and routed. |
| Retirement.UnverifiedStillRouted | internal/reconciler/reconciler.go:495-515 | With a selection that has no endpoint, the next pass has what left the selection to delete while the provider runs with its route. |
| Retirement.DropRun | internal/reconciler/reconciler.go:517-647 | From the creation of any composition whose first selection is served: passes, updates and one failed pass lead to the deletion of a component in the moment its routes go, in a history that is safe up to and with that deletion. |
| Retirement.ReaddRun | internal/reconciler/reconciler.go:517-647 | From there as well: after an update that takes back what left the selection, the next pass deletes it while it is published and routed. |
| Retirement.DetachRun | internal/reconciler/reconciler.go:495-515 | From the creation of any such composition without verification: after one pass and one update to workers, the next pass deletes a component that is still routed. |
| Retirement.DropExample | internal/reconciler/reconciler.go:517-647 | Such a run exists: from {a, b} to {b} to {c}. |
| Retirement.ReaddExample | internal/reconciler/reconciler.go:517-647 | Such a run exists: from {a, b} to {b} and back. |
| Retirement.DetachExample | internal/reconciler/reconciler.go:495-515 | Such a run exists: from a web component to a worker. |
| Runs.LeadsKept | internal/reconciler/reconciler.go:239-670 | Passes, updates and time lead from a moment of the world to a moment of the world, so the histories of these runs are safe. |
| RouteLock.CallsInStoreOrder | internal/reconciler/reconciler.go:852-893 | With any number of workers, provider calls carry snapshots of committed store contents, in the order in which those were committed. |
| RouteLock.WithdrawnForGood | internal/reconciler/reconciler.go:852-893 | Once a deletion or route removal is stored and one sync that read it has called the provider, no later call of any worker carries the withdrawn entries. |
| RouteLock.SyncCalls | internal/reconciler/reconciler.go:852-893 | Whenever the lock is free a worker can sync: the provider gets the snapshot of the current contents, and the lock is free again. |
| RouteLock.Invariant | internal/reconciler/queue.go:63-70 | Mutual exclusion, faithful reads and order hold in every interleaving. |
| RouteCycle.CacheRefines | internal/reconciler/reconciler.go:869-890 | For every sequence of requests and every way their calls end, the cache leaves the provider where always calling would. |
| RouteCycle.ReadyIsTrue | internal/reconciler/reconciler.go:869-890 | A request that is accepted, called or not, finds the provider with what it asked for. |
| RouteCycle.Cycler.Sync | internal/reconciler/reconciler.go:869-890 | A request for the snapshot applied last is accepted without a call; any other forgets it, moves what its call touches towards the new target, and is remembered only if the call completes. |
| Previews.ComputesFenced | internal/persistence/postgres/github_preview.go:291-308 | A create or update changes compute only against a stored preview that is not terminal, under an enabled policy, at exactly the claimed version. |
| Previews.NoComputeAfterStop | internal/persistence/postgres/github_preview.go:117-179 | In every run, between a moment at which the preview is stopped and a later create or update, a new lifecycle was started. |
| Previews.StopStays | internal/application/github_preview.go:505-546 | Only the start of a new lifecycle takes a stop back, whoever saves what copy. |
| Previews.LifecycleGrows | internal/application/github_preview.go:577-625 | At every transaction of every run the lifecycle stays, or grows by one in the save that starts a new lifecycle for a preview whose stored row names no live composition. |
| Previews.LifecycleNeverFalls | internal/application/github_preview.go:577-625 | In every run, later lifecycles are no smaller. |
| Previews.TrackedExactly | internal/persistence/postgres/github_preview.go:130-163 | A transaction loses track of a live composition exactly when it is a save at the stored version whose copy names another composition, or none. |
| Previews.AtMostOneLive | internal/application/github_preview.go:788-797 | In every run without such a save a preview has at most one composition that is not destroyed. |
| Previews.UnlinkedLeavesTwo | internal/application/github_preview.go:577-625 | Wherever a run that tracked its live compositions makes such a save, it can go on, by a restart and a deployment, to two live compositions. |
| Previews.StopBehindCreateLeavesTwo | internal/persistence/postgres/store.go:252-262 | With such a save it has two: create links without a new version, a stop read before it writes the empty link back, and a restart creates the second. |
| PreviewController.Service.SavePRPreview | internal/persistence/postgres/github_preview.go:117-179 | Compare-and-swap on the version: a difference is stored with the next version, a conflict or an edit without one writes nothing. |
| PreviewController.Service.GuardPRPreview | internal/persistence/postgres/github_preview.go:265-324 | Which composition writes a claim or a link allows, and that a user's deletion stops the owning preview with a new version. |
| PreviewController.Service.CreateComposition | internal/persistence/postgres/store.go:161-282 | Creates and links under the fence, replays by key, and may succeed without reporting it. |
| PreviewController.Service.UserDestroyComposition | internal/persistence/postgres/store.go:408-462 | The composition is condemned and, where a preview owns it, that preview is stopped in the same transaction with a new version. |
| PreviewController.Service.UpdateComposition | internal/persistence/postgres/store.go:565-711 | Updates under the fence, and may succeed without reporting it. |
| PreviewController.Service.DestroyComposition | internal/persistence/postgres/store.go:408-462 | Under an exact claim, stopped or not, the composition gets a new generation that is to be destroyed, unless it already is; no other composition changes. |
| PreviewController.Service.PreviewFeedback | internal/application/github_preview.go:923-951 | What GitHub was told is saved over the copy it was told from. |
| PreviewController.Service.TearDown | internal/application/github_preview.go:578-585 | A stopped preview destroys its composition under its claim first, and its saves stay in the lifecycle. |
| PreviewController.Service.StartLifecycle | internal/application/github_preview.go:587-624 | The restart is one save, under an enabled policy, of exactly the next lifecycle. |
| PreviewController.Service.StoreIntent | internal/application/github_preview.go:657-669 | The intent is saved before anything is submitted, and what is submitted are its builds. |
| PreviewController.Service.ObservePreviewPR | internal/application/github_preview.go:505-546 | Exactly when an observation stops a preview, restarts it, or is left for later. |
| PreviewController.Service.ObservePreviewComposition | internal/application/github_preview.go:548-575 | Expired and deleted compositions stop their preview, and nothing else changes. |
| PreviewController.Service.FinishPRPreview | internal/application/github_preview.go:577-625 | A stopped preview only destroys, and starts a new lifecycle only on request and once its composition is destroyed. |
| PreviewController.Service.DeployPR | internal/application/github_preview.go:777-812 | For a head that is still current, one submission of the stored intent under exactly the version that stored it, and one save of what came of it; for any other, nothing. |
| PreviewController.Service.AdvancePRPreview | internal/application/github_preview.go:627-670 | Exactly what a pass over a running preview does: it only tells while the composition is under way, nothing was built, or the stored intent is deployed; it does nothing on a failed selection; it submits the stored intent again, for a head that is still current, where the composition does not have its builds; and a new head or run is stored before it is submitted. |
| PreviewController.Service.ReconcilePR | internal/application/github_preview.go:477-503 | A pass touches compute only for a wanted preview under an enabled policy. |
| PreviewController.Service.SaveAndProceed | internal/application/github_preview.go:490-503 | What was observed is saved first; the pass goes on exactly if that save met the version it was read at, and for a stopped preview then destroys under the new version. |
| PreviewController.Service.ControlPRPreview | internal/application/github_preview.go:220-273 | A successful stop or restart leaves the stored preview terminal in the requested state. |
| StopEvents.BatchSettles | internal/application/github_preview_events.go:28-77 | A batch leaves each row closed at the latest event past its restart barrier and last stop, or as it was. |
| StopEvents.OrderDoesNotMatter | internal/application/github_preview_events.go:28-45 | Equal sets of events leave equal rows up to the version, whatever their order and repetition. |
| StopEvents.BarrierHolds | internal/application/github_preview_events.go:79-82 | Events at or before the restart barrier change nothing. |
| StopEvents.AppliedExactly | internal/application/github_preview_events.go:47-77 | A delivery counts exactly if it closes this very pull request, or takes its label, later than the barrier and the last stop; then the preview is closed at its time, terminal and no longer requested, in one new version; any other, or a second one, changes nothing. |
| StopEvents.RetryConverges | internal/application/github_preview_events.go:28-45 | A batch that failed part way and is delivered again ends where one delivery would have. |
| StopEvents.VersionCountsMaxima | internal/application/github_preview_events.go:59-69 | The version does depend on the order. |
| StopEvents.ApplyPRStopEvent | internal/application/github_preview_events.go:47-77 | One event is applied to every row, or to a part of them when a save fails; a row that it counts for ends terminal, not requested, closed at the event's time. |
| StopEvents.ApplyPRStopEvents | internal/application/github_preview_events.go:28-45 | On success every row is settled for the batch; after a failure every row is reached by some of its events. |
| ExecutionGraph.ValidateExecution | internal/domain/workload.go:85-129 | Accepts exactly the declarations in which every setting is given to just the kinds of workload that have it, within its range, with distinct valid dependencies other than the component itself. |
| ExecutionGraph.CatalogIDExactly | internal/domain/catalog.go:59-61 | Ids are one lower-case letter, or a letter, at most 61 letters, digits and dashes, and a letter or digit. |
| ExecutionGraph.ValidateComponents | internal/domain/workload.go:149-164 | A rejection names an invalid component or a dependency that is declared and not registered. |
| ExecutionGraph.Search.Visit | internal/domain/workload.go:166-190 | Completes a name and all it depends on in dependency order, or finds a cycle. |
| ExecutionGraph.ValidateExecutionGraph | internal/domain/workload.go:148-196 | Terminates on every map and accepts exactly valid executions whose declared dependencies are registered and never lead back to where they started; a rejection for a cycle comes with one. |
| Dependencies.OrderedIsAcyclic | internal/domain/workload.go:166-196 | An order with every name after its dependencies rules out cycles. |
| Dependencies.BackEdgeCloses | internal/domain/workload.go:169-171 | Meeting a name that is being visited exhibits a cycle. |
| DiagnosisOrder.OrderedComponentNames | internal/domain/diagnosis.go:172-212 | The search computes the listing function, so the walk order of its maps makes no difference. |
| DiagnosisOrder.ListsEachOnce | internal/domain/diagnosis.go:172-212 | On every graph, cyclic ones included, each observed component is listed exactly once and nothing else is. |
| DiagnosisOrder.DependenciesFirstExactly | internal/domain/diagnosis.go:183-212 | Every observed component comes after all observed ones that its declaration names, if and only if no way along observed dependencies leads back to its start. |
| DiagnosisOrder.ValidatedPlansAreOrdered | internal/domain/diagnosis.go:172-212 | On every plan that graph validation accepts, each listed component comes after every observed dependency that its profile declares. |
| DiagnosisOrder.IndependentAlphabetical | internal/domain/diagnosis.go:172-212 | Without dependencies among the observed components the listing is alphabetical. |
| DiagnosisOrder.DeclarationOrder | internal/domain/diagnosis.go:193-205 | The order in which a declaration names its dependencies makes no difference. |
| Filters.BalancedFilter | internal/domain/messaging.go:187-224 | The scanner's loop decides balance outside quotes, with escapes inside them. |
| Filters.BalancedExactly | internal/domain/messaging.go:187-224 | The scanner accepts exactly the filters that read as characters, string literals with their escapes, and brackets around such texts. |
| Filters.OneReading | internal/domain/messaging.go:187-224 | No filter has two readings. |
| Filters.ComposedBalanced | internal/domain/messaging.go:56-62 | Two balanced filters compose to a balanced one. |
| Filters.EnclosedExactly | internal/domain/messaging.go:56-62 | Behind a balanced base, the bracket before a business filter is closed by the final character and nothing earlier exactly when the scanner accepts the business filter. |
| Filters.ReadAsConjunction | internal/domain/messaging.go:56-62 | Behind a balanced base a business filter is accepted exactly when the composed filter reads as the conjunction of the two, each in its own brackets as it reads alone. |
| Messaging.ValidateMessaging | internal/domain/messaging.go:64-82 | Accepts exactly the valid baselines, whatever the order in which their maps are walked. |
| MessagingRules.MessagingExactly | internal/domain/messaging.go:64-146 | Valid are exactly the baselines within the two limits whose topics and consumers are sound: ids, resource names, bound and distinct publishers, variables, filters, and no topic name, subscription or variable of a component twice. |
| MessagingRules.ConsumerExactly | internal/domain/messaging.go:124-146 | A consumer is valid exactly with an id, a subscription, a bound component, a variable that is not reserved, and a filter that can be read, of at most 183 characters, without line breaks and without the attribute of isolation. |
| MessagingRules.KindExactly | internal/domain/messaging.go:51-54 | A resource name passes for a topic if its kind is `topics` or its project has that name, and so with subscriptions. |
| MessagingRules.SubscriptionAsTopic | internal/domain/messaging.go:88-92 | So a subscription in a project named `topics` passes for a topic. |
| Messaging.MessagingValidation.ValidateTopic | internal/domain/messaging.go:88-109 | A refused topic means that the baseline is not valid; an accepted one is noted with all its consumers. |
| Messaging.MessagingValidation.ValidateConsumer | internal/domain/messaging.go:124-146 | A consumer is accepted exactly when it is valid and distinct from those noted. |
| Messaging.ValidatePublishers | internal/domain/messaging.go:111-122 | Publishers are bound and distinct. |
| Messaging.ResolveMessaging | internal/domain/messaging.go:148-162 | Exactly one subscription for each consumer, sorted by name. |
| MessagingRules.SubscriptionSays | internal/domain/messaging.go:148-162 | A subscription is named by project and digest, and has the topic, component and variable of its consumer and the filter of this composition, in conjunction with a business filter. |
| Messaging.ResolvedCanonical | internal/domain/messaging.go:148-162 | With a digest that gives the consumers of the baseline different texts of forty characters the list is one list, whatever the walk order. |
| Messaging.NamesApart | internal/domain/messaging.go:150-155 | With such a digest distinct consumers get distinct subscription names. |
| Messaging.ToldApart | internal/domain/messaging.go:70-82 | Every valid baseline has such a digest, whatever the installation and the composition. |
| Messaging.ResolvedEnclosed | internal/domain/messaging.go:153-155 | No business filter of a valid baseline leaves the conjunction with the composition's own attribute. |
| Messaging.ValidQualified | internal/domain/messaging.go:152 | Valid topics name a project, so resolution finds one. |
| Messaging.MessagingEnvironment | internal/domain/messaging.go:164-183 | The loops compute the environment function, in which the last subscription for a variable decides. |
| Messaging.EnvironmentExact | internal/domain/messaging.go:164-183 | Exactly the flag and the component's variables are set: empty without isolation, and with it the name of that very consumer's subscription; the flag is never overwritten. |
| MessagingRules.VariablesExactly | internal/domain/messaging.go:168-174 | The variables of a component are those of its consumers. |
| Baggage.PatternText | internal/routing/baggage.go:13-15 | The expression whose meaning is given is the one that is written, with the id quoted, for any key. |
| Baggage.BaggageText | internal/routing/baggage.go:13-15 | For a composition it is exactly this expression. |
| Baggage.QuotedLiterally | internal/routing/baggage.go:14 | The quoted id stands for itself: every character that means something in an expression is escaped. |
| Baggage.IngressText | internal/routing/baggage.go:17-19 | The header in full. |
| Baggage.LanguageExact | internal/routing/baggage.go:13-15 | It matches exactly the headers with a member that names the id, for ids without commas, semicolons and surrounding blanks. |
| Baggage.MemberExact | internal/routing/baggage.go:9-15 | One member matches exactly when its key is the composition key and its value the id. |
| Baggage.IngressSelectsOne | internal/routing/baggage.go:13-19 | Among ids without commas, semicolons and blanks at their ends, each ingress header selects exactly one composition. |
| Baggage.IssuedSelectsOne | internal/application/service.go:389-396 | So the header of an issued id, twelve bytes in hexadecimal, selects that composition and no other issued one. |
| Baggage.SelectsOneExactly | internal/routing/baggage.go:13-19 | The header of an id selects that id and no other plain one if and only if the id itself has no comma, no semicolon and no blank at its ends. |
| Baggage.CommaSelectsAnother | internal/routing/baggage.go:17-19 | The header of an id that contains another one as a composition member of its own selects that one as well. |
| Baggage.HeardSelected | internal/routing/baggage.go:17-19 | The header of any id without a line break behind its first comma selects what stands before its first comma or semicolon, trimmed. |
| JsonPointer.DecodeEncode | integrations/onboarding/smoke.py:57-70 | Decoding an encoded pointer within the limit gives the tokens back. |
| JsonPointer.EncodeDecode | integrations/onboarding/smoke.py:57-70 | Every accepted pointer encodes back to itself. |
| JsonPointer.AcceptedExactly | integrations/onboarding/smoke.py:57-65 | Exactly the encodings within the limit are accepted. |
| JsonPointer.TwoPassesAreOne | integrations/onboarding/smoke.py:66-70 | On valid escapes the two replacements equal one decoding from the left (RFC 6901, section 4). |
| JsonPointer.UnescapeEscape | integrations/onboarding/smoke.py:66-70 | A single decoding undoes the encoding of RFC 6901, section 3. |
| JsonPointer.Select | integrations/onboarding/smoke.py:73-84 | The walk returns what the pointer's tokens lead to, and tells a missing value from an invalid pointer. |
| JsonPointer.PointerReaches | integrations/onboarding/smoke.py:73-84 | The pointer that encodes the way to a value leads back to it. |
| JsonPointer.PointerExactly | integrations/onboarding/smoke.py:73-84 | An accepted pointer leads to a value exactly along the one way through keys and indexes that it encodes; an index has no other writing than its decimal one. |

## Left out

- Backoff and jitter after a failure: the next attempt is any time, which covers every delay.
- Conditions, messages, provenance, verification levels, audit records, revisions and operations beyond their status.
- Recorded message observations that survive a failed subscription call: a subscription's readiness is whatever the provider answers.
- A messaging provider that answers with other subscriptions than the planned ones; `Reconciler.Reconciler.EnsureMessaging` records one answer for each.
- The order in which components are visited: `Reconciler.Reconciler.EnsureComponents` visits them in any order, which covers the sorted one.
- The single-workload field of rows written by old releases, and cancelled compositions.
- Kubernetes, Istio, Cilium, Linkerd, GitHub and Pub/Sub themselves: each call may succeed, fail, or change something and then fail.
- The queue's keys, delays and namespace index: any worker may run a pass at any time.
- Idempotent replays of an update and of a create with another request body: they commit nothing.
- Capacity limits, build checks and catalog checks of create and update, which only refuse.
- Several previews at once: transactions on another preview's row do not touch this one.
- Selection of workflow runs and builds for a preview: any selection may be made.
- Paging through preview rows: one array holds them all.
- The text of a route's aggregate name, a digest of its service host: the host itself stands for it.
- Schedules are known by their length and number of fields, timeouts by their duration.
- HTTP handlers, clients, the command line, web pages, deployment scripts, authentication and catalog editing.
