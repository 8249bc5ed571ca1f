/**
 The aggregate route table: one snapshot of every active composition, offered to the
 routing provider as a whole. Ingress publication and mesh retention are decided separately,
 so that teardown can close new requests before it drains the running ones.
 */
module RouteTable {
  import opened Domain
  import opened Ordering

  // ----- Snapshot contents -----

  /** Where a component of a baseline is routed; the aggregate's own name is a digest of the service host. */
  datatype RouteDomain = RouteDomain(routing: BaselineRouting, serviceHost: string, port: int)

  datatype Destination = Host(host: string) | Workload(service: string, namespace: string)

  datatype RouteEntry = RouteEntry(
    messageIsolation: bool,
    domain: RouteDomain,
    compositionID: string,
    host: string,
    destination: Destination,
    port: int,
    ownershipToken: string,
    selectorHeader: string)

  datatype Snapshot = Snapshot(
    domains: seq<RouteDomain>,
    mesh: seq<RouteEntry>,
    ingress: seq<RouteEntry>,
    selector: seq<RouteEntry>,
    owned: map<string, string>)

  const EMPTY := Snapshot([], [], [], [], map[])

  function BindingOf(b: Baseline, component: string): Binding {
    if component in b.components then b.components[component] else Binding("", 0)
  }

  function DomainOf(b: Baseline, component: string): RouteDomain {
    RouteDomain(b.routing, BindingOf(b, component).serviceHost, BindingOf(b, component).port)
  }

  /** Whether the rows of c still have anything in the mesh. */
  predicate Meshed(c: Composition) {
    c.runtime.routingActive && !c.runtime.routesRemoved && c.phase != Destroyed
  }

  predicate IngressOpen(c: Composition, now: int) {
    Meshed(c) && !c.deletionRequested && now < c.expiresAt
  }

  /** The published selection names this component and its profile serves requests. */
  predicate PublishedEndpoint(c: Composition, component: string) {
    c.plan.Some? && component in c.runtime.published &&
    component in c.plan.value.profiles && c.plan.value.profiles[component].HasEndpoint()
  }

  /** The components of c that the mesh routes to its own workloads. */
  function MeshComponents(c: Composition): (r: set<string>)
    ensures forall k :: k in r <==> Meshed(c) && PublishedEndpoint(c, k)
  {
    if Meshed(c) then set k | k in c.runtime.published && PublishedEndpoint(c, k) else {}
  }

  function MeshEntry(c: Composition, plan: Plan, component: string): RouteEntry
    requires component in plan.profiles
  {
    RouteEntry(false, DomainOf(plan.baseline, component), c.id, "",
               Workload(WorkloadFor(c, component).service, WorkloadFor(c, component).namespace),
               plan.profiles[component].port, c.runtime.ownershipToken, "")
  }

  predicate ValidReference(c: Composition, component: string) {
    WorkloadFor(c, component).namespace == NamespaceForID(c.id) && WorkloadFor(c, component).service == component
  }

  /** What the first components of a selection add to a snapshot; `None` is an error. */
  function ComponentRoutes(c: Composition, plan: Plan, names: seq<string>): (r: Option<(seq<RouteDomain>, seq<RouteEntry>)>)
  {
    if names == [] then Some(([], [])) else
      var component := names[|names| - 1];
      match ComponentRoutes(c, plan, names[..|names| - 1])
      case None => None
      case Some((domains, mesh)) =>
        if component !in plan.profiles || plan.profiles[component].id != component then None
        else if !plan.profiles[component].HasEndpoint() then Some((domains, mesh))
        else if !Meshed(c) then Some((domains + [DomainOf(plan.baseline, component)], mesh))
        else if !ValidReference(c, component) then None
        else Some((domains + [DomainOf(plan.baseline, component)], mesh + [MeshEntry(c, plan, component)]))
  }

  /** The ingress entry, and the selector entry when the baseline has a preview selector. */
  function IngressRoutes(c: Composition, plan: Plan, now: int): Option<(seq<RouteEntry>, seq<RouteEntry>)> {
    if !IngressOpen(c, now) then Some(([], []))
    else if EndpointHost(c).None? then None
    else
      var entryComponent := plan.baseline.routing.entryComponent;
      var own := entryComponent in plan.profiles;
      var entry := RouteEntry(
        c.messageIsolation, DomainOf(plan.baseline, entryComponent), c.id, EndpointHost(c).value,
        if own then Workload(WorkloadFor(c, entryComponent).service, WorkloadFor(c, entryComponent).namespace)
        else Host(BindingOf(plan.baseline, entryComponent).serviceHost),
        if own then plan.profiles[entryComponent].port else BindingOf(plan.baseline, entryComponent).port,
        c.runtime.ownershipToken,
        if plan.baseline.routing.previewSelector.Some? then plan.baseline.routing.previewSelector.value else "");
      if plan.baseline.routing.previewSelector.None? then Some(([entry], []))
      else if plan.baseline.host.None? then None
      else Some(([entry], [entry.(host := plan.baseline.host.value)]))
  }

  /** Everything one row adds to a snapshot, decided from that row alone. */
  ghost function Contribution(c: Composition, now: int): Option<Snapshot> {
    if c.plan.None? then None else
      match ComponentRoutes(c, c.plan.value, SortedKeys(c.runtime.published.Keys))
      case None => None
      case Some((domains, mesh)) =>
        match IngressRoutes(c, c.plan.value, now)
        case None => None
        case Some((ingress, selector)) =>
          Some(Snapshot(domains, mesh, ingress, selector, map[c.id := c.runtime.ownershipToken]))
  }

  function Append(s: Snapshot, t: Snapshot): Snapshot {
    Snapshot(s.domains + t.domains, s.mesh + t.mesh, s.ingress + t.ingress, s.selector + t.selector, s.owned + t.owned)
  }

  /** Parts appended one after the other, unless one of them failed. */
  function Joined(parts: seq<Option<Snapshot>>): Option<Snapshot> {
    if parts == [] then Some(EMPTY) else
      match (Joined(parts[..|parts| - 1]), parts[|parts| - 1])
      case (Some(s), Some(t)) => Some(Append(s, t))
      case _ => None
  }

  ghost function Contributions(rows: seq<Composition>, now: int): seq<Option<Snapshot>> {
    seq(|rows|, i requires 0 <= i < |rows| => Contribution(rows[i], now))
  }

  /** The snapshot of rows already in ascending order. */
  ghost function Assemble(rows: seq<Composition>, now: int): Option<Snapshot> {
    Joined(Contributions(rows, now))
  }

  function RowID(c: Composition): string { c.id }

  ghost function SnapshotOf(rows: seq<Composition>, now: int): Option<Snapshot> {
    Assemble(SortBy(rows, RowID), now)
  }

  // ----- The builder -----

  lemma OneMore<T>(s: seq<T>, i: nat)
    requires i < |s|
    ensures s[..i + 1] == s[..i] + [s[i]]
    ensures s[..i + 1][..|s[..i + 1]| - 1] == s[..i]
  {
  }

  lemma {:induction false} ComponentRoutesFail(c: Composition, plan: Plan, names: seq<string>, i: nat)
    requires i <= |names| && ComponentRoutes(c, plan, names[..i]).None?
    ensures ComponentRoutes(c, plan, names).None?
    decreases |names| - i
  {
    if i < |names| {
      OneMore(names, i);
      ComponentRoutesFail(c, plan, names, i + 1);
    } else {
      assert names[..i] == names;
    }
  }

  lemma JoinedMore(parts: seq<Option<Snapshot>>, i: nat)
    requires i < |parts|
    ensures Joined(parts[..i + 1]) ==
            if Joined(parts[..i]).Some? && parts[i].Some? then Some(Append(Joined(parts[..i]).value, parts[i].value)) else None
  {
    OneMore(parts, i);
  }

  lemma {:induction false} JoinedFail(parts: seq<Option<Snapshot>>, i: nat)
    requires i <= |parts| && Joined(parts[..i]).None?
    ensures Joined(parts).None?
    decreases |parts| - i
  {
    if i < |parts| {
      OneMore(parts, i);
      JoinedFail(parts, i + 1);
    } else {
      assert parts[..i] == parts;
    }
  }

  method AddComponents(c: Composition, plan: Plan, names: seq<string>)
    returns (r: Option<(seq<RouteDomain>, seq<RouteEntry>)>)
    ensures r == ComponentRoutes(c, plan, names)
  {
    var domains: seq<RouteDomain>, mesh: seq<RouteEntry> := [], [];
    var i := 0;
    while i < |names|
      invariant i <= |names|
      invariant ComponentRoutes(c, plan, names[..i]) == Some((domains, mesh))
    {
      var component := names[i];
      OneMore(names, i);
      if component !in plan.profiles || plan.profiles[component].id != component {
        ComponentRoutesFail(c, plan, names, i + 1);
        return None;
      }
      if plan.profiles[component].HasEndpoint() {
        domains := domains + [DomainOf(plan.baseline, component)];
        if Meshed(c) {
          if !ValidReference(c, component) {
            ComponentRoutesFail(c, plan, names, i + 1);
            return None;
          }
          mesh := mesh + [MeshEntry(c, plan, component)];
        }
      }
      i := i + 1;
    }
    assert names[..i] == names;
    return Some((domains, mesh));
  }

  /** Appends what one row contributes; the partial result of a failed row is discarded by every caller. */
  method AddComposition(s: Snapshot, c: Composition, now: int) returns (r: Option<Snapshot>)
    ensures Contribution(c, now).None? ==> r == None
    ensures Contribution(c, now).Some? ==> r == Some(Append(s, Contribution(c, now).value))
  {
    if c.plan.None? {
      return None;
    }
    var names := ListKeys(c.runtime.published.Keys);
    var routes := AddComponents(c, c.plan.value, names);
    if routes.None? {
      return None;
    }
    var ingress := IngressRoutes(c, c.plan.value, now);
    if ingress.None? {
      return None;
    }
    var own := Snapshot(routes.value.0, routes.value.1, ingress.value.0, ingress.value.1, map[c.id := c.runtime.ownershipToken]);
    assert Contribution(c, now) == Some(own);
    return Some(Append(s, own));
  }

  method BuildSnapshot(rows: seq<Composition>, now: int) returns (r: Option<Snapshot>)
    ensures r == SnapshotOf(rows, now)
  {
    var sorted := SortBy(rows, RowID);
    ghost var parts := Contributions(sorted, now);
    var snapshot := EMPTY;
    var i := 0;
    while i < |sorted|
      invariant i <= |sorted|
      invariant Joined(parts[..i]) == Some(snapshot)
    {
      JoinedMore(parts, i);
      assert parts[i] == Contribution(sorted[i], now);
      var next := AddComposition(snapshot, sorted[i], now);
      if next.None? {
        JoinedFail(parts, i + 1);
        return None;
      }
      snapshot := next.value;
      i := i + 1;
    }
    assert parts[..i] == parts;
    return Some(snapshot);
  }

  // ----- Canonical -----

  ghost predicate DistinctIDs(rows: seq<Composition>) {
    forall i, j :: 0 <= i < j < |rows| ==> rows[i].id != rows[j].id
  }

  lemma DistinctIDsIdentify(rows: seq<Composition>)
    requires DistinctIDs(rows)
    ensures KeysIdentify(rows, RowID)
  {
  }

  /** Every permutation of the same distinct-id rows gives the identical result, errors included. */
  lemma SnapshotCanonical(a: seq<Composition>, b: seq<Composition>, now: int)
    requires multiset(a) == multiset(b) && DistinctIDs(a)
    ensures SnapshotOf(a, now) == SnapshotOf(b, now)
  {
    DistinctIDsIdentify(a);
    SortCanonical(a, b, RowID);
  }

  // ----- Local -----

  function EntriesOf(entries: seq<RouteEntry>, id: string): seq<RouteEntry> {
    if entries == [] then [] else
      EntriesOf(entries[..|entries| - 1], id) +
      (if entries[|entries| - 1].compositionID == id then [entries[|entries| - 1]] else [])
  }

  lemma {:induction false} EntriesAppend(a: seq<RouteEntry>, b: seq<RouteEntry>, id: string)
    ensures EntriesOf(a + b, id) == EntriesOf(a, id) + EntriesOf(b, id)
  {
    if b == [] {
      assert a + b == a;
    } else {
      assert (a + b)[..|a + b| - 1] == a + b[..|b| - 1];
      EntriesAppend(a, b[..|b| - 1], id);
    }
  }

  ghost predicate AllFrom(entries: seq<RouteEntry>, id: string) {
    forall e :: e in entries ==> e.compositionID == id
  }

  lemma {:induction false} EntriesOwn(entries: seq<RouteEntry>, owner: string, id: string)
    requires AllFrom(entries, owner)
    ensures EntriesOf(entries, id) == if owner == id then entries else []
  {
    if entries != [] {
      EntriesOwn(entries[..|entries| - 1], owner, id);
      assert entries == entries[..|entries| - 1] + [entries[|entries| - 1]];
    }
  }

  /** The entries a snapshot carries for one composition. */
  function Share(s: Snapshot, id: string): (seq<RouteEntry>, seq<RouteEntry>, seq<RouteEntry>) {
    (EntriesOf(s.mesh, id), EntriesOf(s.ingress, id), EntriesOf(s.selector, id))
  }

  lemma {:induction false} MeshOwned(c: Composition, plan: Plan, names: seq<string>)
    requires ComponentRoutes(c, plan, names).Some?
    ensures AllFrom(ComponentRoutes(c, plan, names).value.1, c.id)
  {
    if names != [] {
      MeshOwned(c, plan, names[..|names| - 1]);
    }
  }

  ghost predicate Owned(s: Snapshot, id: string) {
    AllFrom(s.mesh, id) && AllFrom(s.ingress, id) && AllFrom(s.selector, id)
  }

  lemma ContributionOwned(c: Composition, now: int)
    requires Contribution(c, now).Some?
    ensures Owned(Contribution(c, now).value, c.id)
  {
    MeshOwned(c, c.plan.value, SortedKeys(c.runtime.published.Keys));
  }

  lemma OwnedShare(s: Snapshot, owner: string, id: string)
    requires Owned(s, owner)
    ensures Share(s, id) == if owner == id then (s.mesh, s.ingress, s.selector) else ([], [], [])
  {
    EntriesOwn(s.mesh, owner, id);
    EntriesOwn(s.ingress, owner, id);
    EntriesOwn(s.selector, owner, id);
  }

  lemma ShareAppend(s: Snapshot, t: Snapshot, id: string)
    ensures Share(Append(s, t), id) ==
            (Share(s, id).0 + Share(t, id).0, Share(s, id).1 + Share(t, id).1, Share(s, id).2 + Share(t, id).2)
  {
    EntriesAppend(s.mesh, t.mesh, id);
    EntriesAppend(s.ingress, t.ingress, id);
    EntriesAppend(s.selector, t.selector, id);
  }

  ghost function Concat(parts: seq<Snapshot>): Snapshot {
    if parts == [] then EMPTY else Append(Concat(parts[..|parts| - 1]), parts[|parts| - 1])
  }

  /** What is joined is the concatenation of parts none of which failed. */
  lemma {:induction false} JoinedConcat(parts: seq<Option<Snapshot>>) returns (values: seq<Snapshot>)
    requires Joined(parts).Some?
    ensures Joined(parts).value == Concat(values) && |values| == |parts|
    ensures forall i :: 0 <= i < |parts| ==> parts[i] == Some(values[i])
  {
    values := [];
    if parts != [] {
      var n := |parts| - 1;
      var front := JoinedConcat(parts[..n]);
      values := front + [parts[n].value];
      assert values[..n] == front;
    }
  }

  /** A table is the concatenation of what its rows contribute. */
  lemma AssembleConcat(rows: seq<Composition>, now: int) returns (parts: seq<Snapshot>)
    requires Assemble(rows, now).Some?
    ensures Assemble(rows, now).value == Concat(parts) && |parts| == |rows|
    ensures forall i :: 0 <= i < |rows| ==> Some(parts[i]) == Contribution(rows[i], now)
  {
    parts := JoinedConcat(Contributions(rows, now));
    forall i | 0 <= i < |rows|
      ensures Some(parts[i]) == Contribution(rows[i], now)
    {
      assert Contributions(rows, now)[i] == Some(parts[i]);
    }
  }

  lemma PartsOwned(rows: seq<Composition>, now: int, parts: seq<Snapshot>, owners: seq<string>)
    requires |parts| == |rows| == |owners|
    requires forall i :: 0 <= i < |rows| ==> Some(parts[i]) == Contribution(rows[i], now)
    requires forall i :: 0 <= i < |rows| ==> owners[i] == rows[i].id
    ensures forall i :: 0 <= i < |rows| ==> Owned(parts[i], owners[i])
  {
    forall i | 0 <= i < |rows|
      ensures Owned(parts[i], owners[i])
    {
      ContributionOwned(rows[i], now);
    }
  }

  lemma {:induction false} ConcatForgets(parts: seq<Snapshot>, owners: seq<string>, id: string)
    requires |parts| == |owners| && forall i :: 0 <= i < |parts| ==> Owned(parts[i], owners[i]) && owners[i] != id
    ensures Share(Concat(parts), id) == ([], [], [])
  {
    if parts != [] {
      var n := |parts| - 1;
      ConcatForgets(parts[..n], owners[..n], id);
      OwnedShare(parts[n], owners[n], id);
      ShareAppend(Concat(parts[..n]), parts[n], id);
    }
  }

  lemma LeftUnit(a: seq<RouteEntry>, b: seq<RouteEntry>, c: seq<RouteEntry>)
    ensures [] + a == a && [] + b == b && [] + c == c
  {
  }

  lemma RightUnit(s: (seq<RouteEntry>, seq<RouteEntry>, seq<RouteEntry>))
    ensures s.0 + [] == s.0 && s.1 + [] == s.1 && s.2 + [] == s.2
  {
  }

  /** Among parts of distinct owners, a concatenation carries for each owner exactly its part. */
  lemma {:induction false} ConcatLocal(parts: seq<Snapshot>, owners: seq<string>, i: nat)
    requires |parts| == |owners| && Distinct(owners) && i < |parts|
    requires forall j :: 0 <= j < |parts| ==> Owned(parts[j], owners[j])
    ensures Share(Concat(parts), owners[i]) == (parts[i].mesh, parts[i].ingress, parts[i].selector)
  {
    var n := |parts| - 1;
    var front, last, id := Concat(parts[..n]), parts[n], owners[i];
    OwnedShare(last, owners[n], id);
    ShareAppend(front, last, id);
    if i == n {
      ConcatForgets(parts[..n], owners[..n], id);
      LeftUnit(last.mesh, last.ingress, last.selector);
    } else {
      ConcatLocal(parts[..n], owners[..n], i);
      assert owners[..n][i] == id && parts[..n][i] == parts[i];
      RightUnit(Share(front, id));
    }
  }

  lemma SortKeepsDistinctIDs(rows: seq<Composition>)
    requires DistinctIDs(rows)
    ensures DistinctIDs(SortBy(rows, RowID))
  {
    var s := SortBy(rows, RowID);
    SameElements(rows, s);
    DistinctIDsIdentify(rows);
    forall i, j | 0 <= i < j < |s|
      ensures s[i].id != s[j].id
    {
      OncePerRow(rows, s[i]);
      if s[i].id == s[j].id {
        assert s[i] in rows && s[j] in rows;
        Twice(s, i, j);
        assert false;
      }
    }
  }

  lemma {:induction false} OncePerRow(rows: seq<Composition>, c: Composition)
    requires DistinctIDs(rows)
    ensures multiset(rows)[c] <= 1
  {
    if rows != [] {
      assert rows == [rows[0]] + rows[1..];
      OncePerRow(rows[1..], c);
    }
  }

  lemma Twice(s: seq<Composition>, i: nat, j: nat)
    requires i < j < |s| && s[i] == s[j]
    ensures multiset(s)[s[i]] >= 2
  {
    assert s == s[..j] + [s[j]] + s[j + 1..];
    assert s[..j][i] == s[i];
    assert s[i] in multiset(s[..j]);
  }

  lemma OrderedLocal(rows: seq<Composition>, now: int, i: nat)
    requires DistinctIDs(rows) && i < |rows| && Assemble(rows, now).Some?
    ensures Contribution(rows[i], now).Some?
    ensures var t := Contribution(rows[i], now).value;
            Share(Assemble(rows, now).value, rows[i].id) == (t.mesh, t.ingress, t.selector)
  {
    var parts := AssembleConcat(rows, now);
    var owners := seq(|rows|, j requires 0 <= j < |rows| => rows[j].id);
    PartsOwned(rows, now, parts, owners);
    ConcatLocal(parts, owners, i);
  }

  /** One composition's entries depend on its own row and on no other. */
  lemma SnapshotLocal(rows: seq<Composition>, now: int, c: Composition)
    requires DistinctIDs(rows) && c in rows && SnapshotOf(rows, now).Some?
    ensures Contribution(c, now).Some?
    ensures var t := Contribution(c, now).value;
            Share(SnapshotOf(rows, now).value, c.id) == (t.mesh, t.ingress, t.selector)
  {
    SortKeepsDistinctIDs(rows);
    SameElements(rows, SortBy(rows, RowID));
    var sorted := SortBy(rows, RowID);
    var i :| 0 <= i < |sorted| && sorted[i] == c;
    OrderedLocal(sorted, now, i);
  }

  /** A composition that is not in the store has nothing in the snapshot. */
  lemma SnapshotForgets(rows: seq<Composition>, now: int, id: string)
    requires SnapshotOf(rows, now).Some? && forall c :: c in rows ==> c.id != id
    ensures Share(SnapshotOf(rows, now).value, id) == ([], [], [])
  {
    var sorted := SortBy(rows, RowID);
    SameElements(rows, sorted);
    OrderedForgets(sorted, now, id);
  }

  lemma OrderedForgets(rows: seq<Composition>, now: int, id: string)
    requires Assemble(rows, now).Some? && forall c :: c in rows ==> c.id != id
    ensures Share(Assemble(rows, now).value, id) == ([], [], [])
  {
    var parts := AssembleConcat(rows, now);
    var owners := seq(|rows|, j requires 0 <= j < |rows| => rows[j].id);
    PartsOwned(rows, now, parts, owners);
    ConcatForgets(parts, owners, id);
  }

  // ----- What a snapshot says about one composition -----

  function Service(e: RouteEntry): string {
    if e.destination.Workload? then e.destination.service else ""
  }

  /** The components of composition id that the mesh entries of a snapshot route to its own workloads. */
  function MeshOf(s: Snapshot, id: string): set<string> {
    set e | e in s.mesh && e.compositionID == id :: Service(e)
  }

  predicate IngressOf(s: Snapshot, id: string) {
    exists e :: e in s.ingress && e.compositionID == id
  }

  lemma {:induction false} EntriesMembers(entries: seq<RouteEntry>, id: string)
    ensures forall e :: e in EntriesOf(entries, id) <==> e in entries && e.compositionID == id
  {
    if entries != [] {
      EntriesMembers(entries[..|entries| - 1], id);
      assert entries == entries[..|entries| - 1] + [entries[|entries| - 1]];
    }
  }

  lemma {:induction false} MeshServices(c: Composition, plan: Plan, names: seq<string>)
    requires ComponentRoutes(c, plan, names).Some?
    ensures forall e :: e in ComponentRoutes(c, plan, names).value.1 ==>
              Meshed(c) && Service(e) in names && Service(e) in plan.profiles && plan.profiles[Service(e)].HasEndpoint()
    ensures forall k :: k in names ==> k in plan.profiles
    ensures forall k :: Meshed(c) && k in names && plan.profiles[k].HasEndpoint() ==>
              exists e :: e in ComponentRoutes(c, plan, names).value.1 && Service(e) == k
  {
    if names != [] {
      var front, last := names[..|names| - 1], names[|names| - 1];
      assert names == front + [last];
      MeshServices(c, plan, front);
      var before, after := ComponentRoutes(c, plan, front).value.1, ComponentRoutes(c, plan, names).value.1;
      if Meshed(c) && plan.profiles[last].HasEndpoint() {
        assert Service(MeshEntry(c, plan, last)) == last;
        assert after[|before|] == MeshEntry(c, plan, last);
      }
      forall k | Meshed(c) && k in names && plan.profiles[k].HasEndpoint()
        ensures exists e :: e in after && Service(e) == k
      {
        if k != last {
          var e :| e in before && Service(e) == k;
          assert e in after;
        }
      }
    }
  }

  lemma ContributionMesh(c: Composition, now: int)
    requires Contribution(c, now).Some?
    ensures forall e :: e in Contribution(c, now).value.mesh ==> Service(e) in MeshComponents(c)
    ensures forall k :: k in MeshComponents(c) ==> exists e :: e in Contribution(c, now).value.mesh && Service(e) == k
  {
    var names := SortedKeys(c.runtime.published.Keys);
    SortedKeysListing(c.runtime.published.Keys);
    MeshServices(c, c.plan.value, names);
  }

  lemma ContributionIngress(c: Composition, now: int)
    requires Contribution(c, now).Some?
    ensures |Contribution(c, now).value.ingress| == if IngressOpen(c, now) then 1 else 0
  {
  }

  lemma ShareMembers(s: Snapshot, t: Snapshot, id: string)
    requires EntriesOf(s.mesh, id) == t.mesh && EntriesOf(s.ingress, id) == t.ingress
    ensures forall e :: e in t.mesh <==> e in s.mesh && e.compositionID == id
    ensures IngressOf(s, id) <==> |t.ingress| > 0
  {
    EntriesMembers(s.mesh, id);
    EntriesMembers(s.ingress, id);
    if |t.ingress| > 0 {
      assert t.ingress[0] in t.ingress;
    }
  }

  /** Row by row, the snapshot's mesh and ingress are the ones the row asks for. */
  lemma SnapshotSays(rows: seq<Composition>, now: int, c: Composition)
    requires DistinctIDs(rows) && c in rows && SnapshotOf(rows, now).Some?
    ensures MeshOf(SnapshotOf(rows, now).value, c.id) == MeshComponents(c)
    ensures IngressOf(SnapshotOf(rows, now).value, c.id) == IngressOpen(c, now)
  {
    var s := SnapshotOf(rows, now).value;
    SnapshotLocal(rows, now, c);
    var t := Contribution(c, now).value;
    ShareMembers(s, t, c.id);
    ContributionMesh(c, now);
    ContributionIngress(c, now);
    forall k
      ensures k in MeshOf(s, c.id) <==> k in MeshComponents(c)
    {
      if k in MeshComponents(c) {
        var e :| e in t.mesh && Service(e) == k;
        assert e in s.mesh;
      }
    }
  }

  /** A composition never has an ingress entry without a mesh entry for each published endpoint component. */
  lemma IngressNeedsMesh(rows: seq<Composition>, now: int, c: Composition)
    requires DistinctIDs(rows) && c in rows && SnapshotOf(rows, now).Some?
    requires IngressOf(SnapshotOf(rows, now).value, c.id)
    ensures forall k :: PublishedEndpoint(c, k) ==> k in MeshOf(SnapshotOf(rows, now).value, c.id)
  {
    SnapshotSays(rows, now, c);
  }

  ghost predicate AllHome(entries: seq<RouteEntry>, c: Composition) {
    forall e :: e in entries ==>
      e.destination.Workload? && e.destination.namespace == NamespaceForID(c.id) && e.destination.service in c.runtime.published &&
      e.ownershipToken == c.runtime.ownershipToken
  }

  lemma {:induction false} ComponentsHome(c: Composition, plan: Plan, names: seq<string>)
    requires ComponentRoutes(c, plan, names).Some? && forall k :: k in names ==> k in c.runtime.published
    ensures AllHome(ComponentRoutes(c, plan, names).value.1, c)
  {
    if names != [] {
      assert names == names[..|names| - 1] + [names[|names| - 1]];
      ComponentsHome(c, plan, names[..|names| - 1]);
    }
  }

  /** A composition's mesh entries lead to its own published workloads in its own namespace and nowhere else. */
  lemma MeshStaysHome(rows: seq<Composition>, now: int, c: Composition)
    requires DistinctIDs(rows) && c in rows && SnapshotOf(rows, now).Some?
    ensures AllHome(EntriesOf(SnapshotOf(rows, now).value.mesh, c.id), c)
  {
    SnapshotLocal(rows, now, c);
    SortedKeysListing(c.runtime.published.Keys);
    ComponentsHome(c, c.plan.value, SortedKeys(c.runtime.published.Keys));
  }
}
