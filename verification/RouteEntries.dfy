/**
 What the aggregate snapshot says entry by entry, told from the stored rows alone: when it exists, which
 entries each row has, and where each of them leads.
 */
module RouteEntries {
  import opened Domain
  import opened Ordering
  import opened RouteTable

  /** The component takes requests: HTTP, also where an older catalog row does not say so. */
  predicate Serves(profile: Component) {
    profile.execution.None? || profile.execution.value.kind == HTTP || profile.execution.value.kind == Unset
  }

  predicate InMesh(c: Composition) {
    c.runtime.routingActive && !c.runtime.routesRemoved && c.phase != Destroyed
  }

  predicate TakesRequests(c: Composition, now: int) {
    InMesh(c) && !c.deletionRequested && now < c.expiresAt
  }

  /** Every published component has its own profile, and in the mesh also its own workload. */
  predicate Deployed(c: Composition, k: string) {
    && c.plan.Some? && k in c.plan.value.profiles && c.plan.value.profiles[k].id == k
    && (Serves(c.plan.value.profiles[k]) && InMesh(c) ==>
          && k in c.runtime.workloads && c.runtime.workloads[k].service == k
          && c.runtime.workloads[k].namespace == NamespaceForID(c.id))
  }

  /** What one row needs for the table to be built. */
  predicate Routable(c: Composition, now: int) {
    && c.plan.Some?
    && (forall k :: k in c.runtime.published ==> Deployed(c, k))
    && (TakesRequests(c, now) ==>
          && "public" in c.endpoints && c.endpoints["public"].host.Some?
          && (c.plan.value.baseline.routing.previewSelector.Some? ==> c.plan.value.baseline.host.Some?))
  }

  /** The name of a namespace is a fixed prefix and the id with its underscores turned into hyphens. */
  lemma NamespaceText(id: string)
    ensures var text := NamespaceForID(id);
            && |text| == 5 + |id| && text[..5] == "envy-"
            && forall i :: 0 <= i < |id| ==> text[5 + i] == if id[i] == '_' then '-' else id[i]
  {
  }

  lemma ComponentRoutable(c: Composition, plan: Plan, front: seq<string>, k: string)
    requires c.plan == Some(plan)
    ensures ComponentRoutes(c, plan, front + [k]).Some? <==> ComponentRoutes(c, plan, front).Some? && Deployed(c, k)
  {
    assert (front + [k])[..|front|] == front;
    assert NamespaceForID(c.id)[0] == 'e';
  }

  lemma {:induction false} ComponentsRoutable(c: Composition, plan: Plan, names: seq<string>)
    requires c.plan == Some(plan)
    ensures ComponentRoutes(c, plan, names).Some? <==> forall k :: k in names ==> Deployed(c, k)
  {
    if names != [] {
      var front, last := names[..|names| - 1], names[|names| - 1];
      assert names == front + [last];
      ComponentsRoutable(c, plan, front);
      ComponentRoutable(c, plan, front, last);
      assert (forall k :: k in names ==> Deployed(c, k)) <==> (forall k :: k in front ==> Deployed(c, k)) && Deployed(c, last);
    }
  }

  lemma RowRoutable(c: Composition, now: int)
    ensures Contribution(c, now).Some? <==> Routable(c, now)
  {
    if c.plan.Some? {
      ComponentsRoutable(c, c.plan.value, SortedKeys(c.runtime.published.Keys));
      SortedKeysListing(c.runtime.published.Keys);
    }
  }

  lemma {:induction false} JoinedExactly(parts: seq<Option<Snapshot>>)
    ensures Joined(parts).Some? <==> forall i :: 0 <= i < |parts| ==> parts[i].Some?
  {
    if parts != [] {
      JoinedExactly(parts[..|parts| - 1]);
    }
  }

  /** A table is built exactly if every row can be routed. */
  lemma BuiltExactly(rows: seq<Composition>, now: int)
    ensures SnapshotOf(rows, now).Some? <==> forall c :: c in rows ==> Routable(c, now)
  {
    var sorted := SortBy(rows, RowID);
    SameElements(rows, sorted);
    JoinedExactly(Contributions(sorted, now));
    forall i | 0 <= i < |sorted|
      ensures Contributions(sorted, now)[i].Some? <==> Routable(sorted[i], now)
    {
      RowRoutable(sorted[i], now);
    }
    if SnapshotOf(rows, now).Some? {
      forall c | c in rows
        ensures Routable(c, now)
      {
        var i :| 0 <= i < |sorted| && sorted[i] == c;
        assert Contributions(sorted, now)[i].Some?;
      }
    }
  }

  // ----- Ingress -----

  /** The part of the route table that belongs to this component of the baseline. */
  predicate Covers(d: RouteDomain, b: Baseline, component: string) {
    && d.routing == b.routing
    && (if component in b.components
        then d.serviceHost == b.components[component].serviceHost && d.port == b.components[component].port
        else d.serviceHost == "" && d.port == 0)
  }

  /** To the workload recorded for this component of the composition. */
  predicate LeadsTo(d: Destination, c: Composition, component: string) {
    && d.Workload?
    && (if component in c.runtime.workloads
        then d.service == c.runtime.workloads[component].service && d.namespace == c.runtime.workloads[component].namespace
        else d.service == "" && d.namespace == "")
  }

  /**
   Takes requests for the composition to its entry component: to its own workload where the plan has a
   profile of that component, to the shared baseline otherwise.
   */
  predicate Enters(e: RouteEntry, c: Composition, plan: Plan) {
    var entry := plan.baseline.routing.entryComponent;
    && e.compositionID == c.id && e.ownershipToken == c.runtime.ownershipToken
    && e.messageIsolation == c.messageIsolation
    && Covers(e.domain, plan.baseline, entry)
    && (if entry in plan.profiles
        then LeadsTo(e.destination, c, entry) && e.port == plan.profiles[entry].port
        else e.destination == Host(e.domain.serviceHost) && e.port == e.domain.port)
    && (match plan.baseline.routing.previewSelector
        case Some(header) => e.selectorHeader == header
        case None => e.selectorHeader == "")
  }

  /** The ingress and selector entries of c are these. */
  predicate EntersBy(ingress: seq<RouteEntry>, selector: seq<RouteEntry>, c: Composition, plan: Plan) {
    && |ingress| == 1 && Enters(ingress[0], c, plan)
    && "public" in c.endpoints && c.endpoints["public"].host == Some(ingress[0].host)
    && (if plan.baseline.routing.previewSelector.None? then selector == []
        else plan.baseline.host.Some? && selector == [ingress[0].(host := plan.baseline.host.value)])
  }

  lemma RowIngress(c: Composition, plan: Plan, now: int)
    requires IngressRoutes(c, plan, now).Some?
    ensures var (ingress, selector) := IngressRoutes(c, plan, now).value;
            if TakesRequests(c, now) then EntersBy(ingress, selector, c, plan) else ingress == [] && selector == []
  {
  }

  /** A composition that takes requests has one ingress entry, and the same on the baseline's host for a preview selector. */
  lemma IngressEntry(rows: seq<Composition>, now: int, c: Composition)
    requires DistinctIDs(rows) && c in rows && SnapshotOf(rows, now).Some?
    ensures c.plan.Some?
    ensures var s := SnapshotOf(rows, now).value;
            if TakesRequests(c, now) then
              EntersBy(EntriesOf(s.ingress, c.id), EntriesOf(s.selector, c.id), c, c.plan.value)
            else EntriesOf(s.ingress, c.id) == [] && EntriesOf(s.selector, c.id) == []
  {
    SnapshotLocal(rows, now, c);
    RowIngress(c, c.plan.value, now);
  }

  // ----- Mesh -----

  /** Takes requests of the composition for component k, of the baseline, to its own workload of that name. */
  predicate Diverts(e: RouteEntry, c: Composition, plan: Plan, k: string) {
    && k in plan.profiles
    && e.compositionID == c.id && e.ownershipToken == c.runtime.ownershipToken
    && !e.messageIsolation && e.host == "" && e.selectorHeader == ""
    && Covers(e.domain, plan.baseline, k)
    && e.destination == Workload(k, NamespaceForID(c.id)) && e.port == plan.profiles[k].port
  }

  /** These components serve requests, and there are no others among `names`. */
  ghost predicate Serving(served: seq<string>, plan: Plan, names: seq<string>) {
    forall k :: k in served <==> k in names && k in plan.profiles && Serves(plan.profiles[k])
  }

  lemma SortedMore(served: seq<string>, names: seq<string>)
    requires names != [] && Sorted(names, Self) && Sorted(served, Self) && forall k :: k in served ==> k in names
    ensures Sorted(served + [names[|names| - 1]], Self)
  {
    if served != [] {
      assert served[|served| - 1] in names;
      var i :| 0 <= i < |names| && names[i] == served[|served| - 1];
      SortedPairs(names, Self, i, |names| - 1);
    }
  }

  lemma {:induction false} ComponentEntries(c: Composition, plan: Plan, names: seq<string>) returns (served: seq<string>)
    requires ComponentRoutes(c, plan, names).Some? && Sorted(names, Self) && Distinct(names)
    ensures Sorted(served, Self) && Distinct(served) && Serving(served, plan, names)
    ensures var (domains, mesh) := ComponentRoutes(c, plan, names).value;
            && |domains| == |served| && (forall i :: 0 <= i < |served| ==> Covers(domains[i], plan.baseline, served[i]))
            && (!InMesh(c) ==> mesh == [])
            && (InMesh(c) ==>
                  |mesh| == |served| && forall i :: 0 <= i < |served| ==> Diverts(mesh[i], c, plan, served[i]))
  {
    served := [];
    if names != [] {
      var front, last := names[..|names| - 1], names[|names| - 1];
      assert names == front + [last];
      var before := ComponentEntries(c, plan, front);
      served := before;
      if Serves(plan.profiles[last]) {
        SortedMore(before, names);
        served := before + [last];
      }
    }
  }

  /**
   The mesh entries of a composition divert exactly its published components that serve requests, each
   once and in the order of their names, while it is in the mesh.
   */
  lemma MeshEntries(rows: seq<Composition>, now: int, c: Composition) returns (served: seq<string>)
    requires DistinctIDs(rows) && c in rows && SnapshotOf(rows, now).Some?
    ensures c.plan.Some? && Sorted(served, Self) && Distinct(served)
    ensures forall k :: k in served <==>
              InMesh(c) && k in c.runtime.published && k in c.plan.value.profiles && Serves(c.plan.value.profiles[k])
    ensures var entries := EntriesOf(SnapshotOf(rows, now).value.mesh, c.id);
            |entries| == |served| && forall i :: 0 <= i < |served| ==> Diverts(entries[i], c, c.plan.value, served[i])
  {
    SnapshotLocal(rows, now, c);
    SortedKeysListing(c.runtime.published.Keys);
    served := ComponentEntries(c, c.plan.value, SortedKeys(c.runtime.published.Keys));
    if !InMesh(c) {
      served := [];
    }
  }

  // ----- The aggregate -----

  /** The domain of a published component of c that serves requests. */
  ghost predicate DomainIn(d: RouteDomain, c: Composition) {
    c.plan.Some? &&
    exists k :: k in c.runtime.published && k in c.plan.value.profiles && Serves(c.plan.value.profiles[k]) &&
                Covers(d, c.plan.value.baseline, k)
  }

  lemma CoveringDomains(domains: seq<RouteDomain>, served: seq<string>, b: Baseline, d: RouteDomain)
    requires |domains| == |served| && forall i :: 0 <= i < |served| ==> Covers(domains[i], b, served[i])
    ensures d in domains <==> exists k :: k in served && Covers(d, b, k)
  {
    if k :| k in served && Covers(d, b, k) {
      var i :| 0 <= i < |served| && served[i] == k;
      assert domains[i] == d;
    }
    if d in domains {
      var i :| 0 <= i < |domains| && domains[i] == d;
      assert served[i] in served;
    }
  }

  lemma RowDomains(c: Composition, now: int, d: RouteDomain)
    requires Contribution(c, now).Some?
    ensures d in Contribution(c, now).value.domains <==> DomainIn(d, c)
  {
    SortedKeysListing(c.runtime.published.Keys);
    var plan := c.plan.value;
    var names := SortedKeys(c.runtime.published.Keys);
    var served := ComponentEntries(c, plan, names);
    CoveringDomains(ComponentRoutes(c, plan, names).value.0, served, plan.baseline, d);
  }

  lemma {:induction false} ConcatDomains(parts: seq<Snapshot>, d: RouteDomain)
    ensures d in Concat(parts).domains <==> exists i :: 0 <= i < |parts| && d in parts[i].domains
  {
    if parts != [] {
      var n := |parts| - 1;
      ConcatDomains(parts[..n], d);
      if i :| 0 <= i < |parts| && d in parts[i].domains {
        assert i < n ==> d in parts[..n][i].domains;
      }
      if i :| 0 <= i < n && d in parts[..n][i].domains {
        assert d in parts[i].domains;
      }
    }
  }

  lemma OrderedDomains(rows: seq<Composition>, now: int, d: RouteDomain)
    requires Assemble(rows, now).Some?
    ensures d in Assemble(rows, now).value.domains <==> exists i :: 0 <= i < |rows| && DomainIn(d, rows[i])
  {
    var parts := AssembleConcat(rows, now);
    ConcatDomains(parts, d);
    forall i | 0 <= i < |rows|
      ensures d in parts[i].domains <==> DomainIn(d, rows[i])
    {
      RowDomains(rows[i], now, d);
    }
    if i :| 0 <= i < |rows| && DomainIn(d, rows[i]) {
      assert d in parts[i].domains;
    }
    if i :| 0 <= i < |parts| && d in parts[i].domains {
      assert DomainIn(d, rows[i]);
    }
  }

  /** The domains of a table are those of the published endpoints of its rows, also of rows whose routes are gone. */
  lemma DomainsExactly(rows: seq<Composition>, now: int, d: RouteDomain)
    requires SnapshotOf(rows, now).Some?
    ensures d in SnapshotOf(rows, now).value.domains <==> exists c :: c in rows && DomainIn(d, c)
  {
    var sorted := SortBy(rows, RowID);
    SameElements(rows, sorted);
    OrderedDomains(sorted, now, d);
    if i :| 0 <= i < |sorted| && DomainIn(d, sorted[i]) {
      assert sorted[i] in rows;
    }
    if c :| c in rows && DomainIn(d, c) {
      var i :| 0 <= i < |sorted| && sorted[i] == c;
    }
  }

  ghost predicate Owns(owned: map<string, string>, c: Composition) {
    c.id in owned && owned[c.id] == c.runtime.ownershipToken
  }

  ghost predicate TokensOf(parts: seq<Snapshot>, rows: seq<Composition>) {
    |parts| == |rows| &&
    forall i :: 0 <= i < |parts| ==> parts[i].owned == map[rows[i].id := rows[i].runtime.ownershipToken]
  }

  lemma {:induction false} ConcatOwns(parts: seq<Snapshot>, rows: seq<Composition>, i: nat)
    requires TokensOf(parts, rows) && DistinctIDs(rows) && i < |rows|
    ensures Owns(Concat(parts).owned, rows[i])
  {
    var n := |parts| - 1;
    if i < n {
      ConcatOwns(parts[..n], rows[..n], i);
      assert rows[..n][i] == rows[i];
    }
  }

  lemma {:induction false} ConcatKnows(parts: seq<Snapshot>, rows: seq<Composition>, id: string) returns (c: Composition)
    requires TokensOf(parts, rows) && id in Concat(parts).owned
    ensures c in rows && c.id == id
  {
    var n := |parts| - 1;
    c := rows[n];
    if id != c.id {
      c := ConcatKnows(parts[..n], rows[..n], id);
    }
  }

  lemma SortedTokens(rows: seq<Composition>, now: int) returns (parts: seq<Snapshot>)
    requires Assemble(rows, now).Some?
    ensures TokensOf(parts, rows) && Assemble(rows, now).value == Concat(parts)
  {
    parts := AssembleConcat(rows, now);
    forall i | 0 <= i < |rows|
      ensures parts[i].owned == map[rows[i].id := rows[i].runtime.ownershipToken]
    {
      assert Some(parts[i]) == Contribution(rows[i], now);
    }
  }

  /** The table knows the ownership token of every row, */
  lemma OwnersKnown(rows: seq<Composition>, now: int, c: Composition)
    requires DistinctIDs(rows) && c in rows && SnapshotOf(rows, now).Some?
    ensures Owns(SnapshotOf(rows, now).value.owned, c)
  {
    var sorted := SortBy(rows, RowID);
    SameElements(rows, sorted);
    SortKeepsDistinctIDs(rows);
    var parts := SortedTokens(sorted, now);
    var i :| 0 <= i < |sorted| && sorted[i] == c;
    ConcatOwns(parts, sorted, i);
  }

  /** and of no other composition. */
  lemma OwnersStored(rows: seq<Composition>, now: int, id: string) returns (c: Composition)
    requires SnapshotOf(rows, now).Some? && id in SnapshotOf(rows, now).value.owned
    ensures c in rows && c.id == id
  {
    var sorted := SortBy(rows, RowID);
    SameElements(rows, sorted);
    var parts := SortedTokens(sorted, now);
    c := ConcatKnows(parts, sorted, id);
  }

  function EntryID(e: RouteEntry): string { e.compositionID }

  lemma {:induction false} ConcatInOrder(parts: seq<Snapshot>, owners: seq<string>)
    requires |parts| == |owners| && Sorted(owners, Self)
    requires forall i :: 0 <= i < |parts| ==> Owned(parts[i], owners[i])
    ensures var s := Concat(parts);
            && Sorted(s.mesh, EntryID) && Sorted(s.ingress, EntryID) && Sorted(s.selector, EntryID)
            && forall e :: e in s.mesh + s.ingress + s.selector ==> e.compositionID in owners
  {
    if parts != [] {
      var n := |parts| - 1;
      ConcatInOrder(parts[..n], owners[..n]);
      var front := Concat(parts[..n]);
      forall x | x in owners
        ensures Leq(x, owners[n])
      {
        var i :| 0 <= i < |owners| && owners[i] == x;
        SortedPairs(owners, Self, i, n);
      }
      AppendInOrder(front.mesh, parts[n].mesh, owners[n]);
      AppendInOrder(front.ingress, parts[n].ingress, owners[n]);
      AppendInOrder(front.selector, parts[n].selector, owners[n]);
    }
  }

  lemma AppendInOrder(front: seq<RouteEntry>, last: seq<RouteEntry>, owner: string)
    requires Sorted(front, EntryID) && AllFrom(last, owner) && forall e :: e in front ==> Leq(e.compositionID, owner)
    ensures Sorted(front + last, EntryID)
  {
    LeqReflexive(owner);
    var all := front + last;
    forall i | 0 <= i < |all| - 1
      ensures Leq(EntryID(all[i]), EntryID(all[i + 1]))
    {
      if i + 1 < |front| {
        assert Leq(EntryID(front[i]), EntryID(front[i + 1]));
      } else {
        assert all[i + 1] in last;
        assert all[i] in front || all[i] in last;
      }
    }
  }

  /** Entries come in the order of the composition ids. */
  lemma EntriesInOrder(rows: seq<Composition>, now: int)
    requires SnapshotOf(rows, now).Some?
    ensures var s := SnapshotOf(rows, now).value;
            Sorted(s.mesh, EntryID) && Sorted(s.ingress, EntryID) && Sorted(s.selector, EntryID)
  {
    var sorted := SortBy(rows, RowID);
    var parts := AssembleConcat(sorted, now);
    var owners := seq(|sorted|, i requires 0 <= i < |sorted| => sorted[i].id);
    PartsOwned(sorted, now, parts, owners);
    assert Sorted(owners, Self) by {
      forall i | 0 <= i < |owners| - 1
        ensures Leq(owners[i], owners[i + 1])
      {
        assert Leq(RowID(sorted[i]), RowID(sorted[i + 1]));
      }
    }
    ConcatInOrder(parts, owners);
  }
}
