/** Validation of declared executions and of the dependency graph they form, before anything runs. */
module ExecutionGraph {
  import opened Domain
  import opened Ordering
  import opened Dependencies

  const SECOND := 1_000_000_000
  const DAY := 86_400 * SECOND

  // ----- One component -----

  predicate Lower(ch: char) { 'a' <= ch <= 'z' }

  predicate LowerOrDigit(ch: char) { Lower(ch) || '0' <= ch <= '9' }

  /** A lower-case letter, then letters, digits and dashes, not ending in a dash; at most 63 in all. */
  predicate ValidCatalogID(id: string) {
    && 1 <= |id| <= 63 && Lower(id[0]) && LowerOrDigit(id[|id| - 1])
    && forall i :: 0 <= i < |id| ==> LowerOrDigit(id[i]) || id[i] == '-'
  }

  /** One letter alone, or a letter, at most 61 letters, digits and dashes, and a letter or digit. */
  lemma CatalogIDExactly(first: char, middle: string, last: char)
    ensures !ValidCatalogID("") && (ValidCatalogID([first]) <==> 'a' <= first <= 'z')
    ensures ValidCatalogID([first] + middle + [last]) <==>
              && 'a' <= first <= 'z' && |middle| <= 61 && last != '-'
              && forall ch :: ch in middle + [last] ==> 'a' <= ch <= 'z' || '0' <= ch <= '9' || ch == '-'
  {
    var id, rest := [first] + middle + [last], middle + [last];
    assert forall i :: 1 <= i < |id| ==> id[i] == rest[i - 1] && id[i] in rest;
    assert rest[|rest| - 1] == last && id[0] == first && |id| == |middle| + 2;
    if ValidCatalogID(id) {
      forall ch | ch in rest
        ensures LowerOrDigit(ch) || ch == '-'
      {
        var i :| 0 <= i < |rest| && rest[i] == ch;
        assert id[i + 1] == ch;
      }
      assert last in rest;
    }
  }

  predicate Finite(e: WorkloadExecution) {
    e.timeout.Lasting? && SECOND <= e.timeout.ns <= DAY && 0 <= e.retryLimit <= 10
  }

  predicate Unscheduled(e: WorkloadExecution) {
    e.scheduleLength == 0 && e.maxRuns == 0 && e.concurrencyPolicy == ""
  }

  /** What each kind of workload may declare. */
  predicate BoundsOf(kind: WorkloadKind, e: WorkloadExecution) {
    match kind
    case HTTP => Unscheduled(e) && e.timeout.Missing? && e.retryLimit == 0
    case Worker => Unscheduled(e) && e.timeout.Missing? && e.retryLimit == 0
    case Job => Unscheduled(e) && Finite(e)
    case ScheduledJob =>
      Finite(e) && e.scheduleFields == 5 && e.scheduleLength <= 128 && 1 <= e.maxRuns <= 1000 && e.concurrencyPolicy == "forbid"
    case _ => false
  }

  /** Every setting is given exactly to the kinds of workload that have it, and within its range. */
  predicate SettingsFit(e: WorkloadExecution) {
    var finite, scheduled := e.kind in {Job, ScheduledJob}, e.kind == ScheduledJob;
    && e.kind in {Unset, HTTP, Worker, Job, ScheduledJob}
    && (if finite then e.timeout.Lasting? && 1_000_000_000 <= e.timeout.ns <= 86_400_000_000_000 else e.timeout == Missing)
    && 0 <= e.retryLimit <= (if finite then 10 else 0)
    && (if scheduled then e.scheduleFields == 5 && e.scheduleLength <= 128 else e.scheduleLength == 0)
    && (if scheduled then 1 <= e.maxRuns <= 1000 else e.maxRuns == 0)
    && e.concurrencyPolicy == (if scheduled then "forbid" else "")
  }

  /** What is declared fits the kind of workload, with distinct dependencies that can be components, other than itself. */
  ghost predicate ValidExecution(c: Component) {
    match c.execution
    case None => true
    case Some(e) =>
      && SettingsFit(e)
      && (forall i, j :: 0 <= i < j < |e.dependencies| ==> e.dependencies[i] != e.dependencies[j])
      && forall d :: d in e.dependencies ==> ValidCatalogID(d) && d != c.id
  }

  method ValidateExecution(c: Component) returns (ok: bool)
    ensures ok <==> ValidExecution(c)
  {
    if c.execution.None? {
      return true;
    }
    var e := c.execution.value;
    if !BoundsOf(c.Kind(), e) {
      return false;
    }
    var seen: set<string> := {};
    var i := 0;
    while i < |e.dependencies|
      invariant i <= |e.dependencies|
      invariant seen == set j | 0 <= j < i :: e.dependencies[j]
      invariant forall j :: 0 <= j < i ==> ValidCatalogID(e.dependencies[j]) && e.dependencies[j] != c.id
      invariant forall j, k :: 0 <= j < k < i ==> e.dependencies[j] != e.dependencies[k]
    {
      var dependency := e.dependencies[i];
      if !ValidCatalogID(dependency) || dependency == c.id || dependency in seen {
        assert dependency in seen ==> exists j :: 0 <= j < i && e.dependencies[j] == e.dependencies[i];
        return false;
      }
      seen := seen + {dependency};
      i := i + 1;
    }
    return true;
  }

  // ----- The graph -----

  type Components = map<string, Component>

  function GraphOf(components: Components): Graph {
    map id | id in components :: components[id].Dependencies()
  }

  /** The declaration of a names b as a dependency. */
  predicate Needs(components: Components, a: string, b: string) {
    a in components && components[a].execution.Some? && b in components[a].execution.value.dependencies
  }

  ghost predicate Registered(components: Components) {
    forall a, b :: Needs(components, a, b) ==> b in components
  }

  /** Each needs the next, and the last is the first again. */
  predicate Circular(components: Components, names: seq<string>) {
    |names| >= 2 && names[0] == names[|names| - 1] &&
    forall i :: 0 <= i < |names| - 1 ==> Needs(components, names[i], names[i + 1])
  }

  lemma CircularInGraph(components: Components, names: seq<string>)
    ensures Circular(components, names) <==> IsCycle(GraphOf(components), names)
  {
    assert forall a, b :: Edge(GraphOf(components), a, b) <==> Needs(components, a, b);
  }

  ghost predicate AllValid(components: Components) {
    forall id :: id in components ==> ValidExecution(components[id])
  }

  datatype Rejection = InvalidExecution(id: string) | NotRegistered(dependency: string) | CyclicDependencies

  /** The first pass: every reference resolves and every declaration is within its bounds. */
  method ValidateComponents(components: Components) returns (r: Option<Rejection>)
    ensures r.None? <==> Registered(components) && AllValid(components)
    ensures r.Some? ==> !r.value.CyclicDependencies?
    ensures r.Some? && r.value.InvalidExecution? ==>
              r.value.id in components && !ValidExecution(components[r.value.id])
    ensures r.Some? && r.value.NotRegistered? ==>
              r.value.dependency !in components && exists id :: Needs(components, id, r.value.dependency)
  {
    var rest := components.Keys;
    while rest != {}
      invariant rest <= components.Keys
      invariant forall id :: id in components && id !in rest ==>
        ValidExecution(components[id]) && forall d :: d in components[id].Dependencies() ==> d in components
      decreases rest
    {
      var id :| id in rest;
      rest := rest - {id};
      var dependencies := components[id].Dependencies();
      for i := 0 to |dependencies|
        invariant forall j :: 0 <= j < i ==> dependencies[j] in components
      {
        if dependencies[i] !in components {
          assert Needs(components, id, dependencies[i]);
          return Some(NotRegistered(dependencies[i]));
        }
      }
      var ok := ValidateExecution(components[id]);
      if !ok {
        return Some(InvalidExecution(id));
      }
    }
    return None;
  }

  /** The second pass: a depth-first search with the names on its way and the names it has left. */
  class Search {
    const components: Components
    var visiting: set<string>
    var complete: set<string>
    ghost var path: seq<string>     // the names being visited, outermost first
    ghost var order: seq<string>    // the names completed, in the order of completion

    ghost predicate Valid()
      reads this
    {
      && Registered(components)
      && (forall id :: id in visiting <==> id in path)
      && (forall id :: id in complete <==> id in order)
      && (forall id :: id in visiting ==> id in components && id !in complete)
      && IsPath(GraphOf(components), path)
      && Distinct(order) && DependenciesFirst(GraphOf(components), order)
    }

    constructor (components: Components)
      requires Registered(components)
      ensures Valid() && this.components == components && path == [] && order == []
    {
      this.components, visiting, complete, path, order := components, {}, {}, [], [];
    }

    /** The name is now being visited. */
    method Enter(id: string)
      requires Valid() && id in components && id !in visiting && id !in complete
      requires path != [] ==> Edge(GraphOf(components), path[|path| - 1], id)
      modifies this
      ensures Valid() && visiting == old(visiting) + {id} && path == old(path) + [id] && order == old(order)
    {
      visiting, path := visiting + {id}, path + [id];
    }

    /** The innermost name is left, everything it depends on being complete. */
    method Leave(id: string)
      requires Valid() && path != [] && path[|path| - 1] == id && id !in path[..|path| - 1]
      requires forall d :: d in components[id].Dependencies() ==> d in complete
      modifies this
      ensures Valid() && id in complete && visiting == old(visiting) - {id} && path == old(path)[..|old(path)| - 1]
      ensures order == old(order) + [id]
    {
      Complete(id);
      visiting, complete := visiting - {id}, complete + {id};
    }

    /** Completes id and everything it depends on, or stops at a dependency that is being visited. */
    method Visit(id: string) returns (ok: bool, ghost cycle: seq<string>)
      requires Valid() && id in components
      requires path != [] ==> Edge(GraphOf(components), path[|path| - 1], id)
      modifies this
      ensures ok ==> Valid() && id in complete && visiting == old(visiting) && path == old(path) && old(order) <= order
      ensures !ok ==> IsCycle(GraphOf(components), cycle)
      decreases components.Keys - visiting, 0
    {
      ok, cycle := true, [];
      if id in visiting {
        cycle := CycleAt(id);
        ok := false;
      } else if id !in complete {
        Enter(id);
        ok, cycle := VisitDependencies(id);
        if ok {
          Leave(id);
        }
      }
    }

    lemma CycleAt(id: string) returns (cycle: seq<string>)
      requires Valid() && id in visiting && path != [] && Edge(GraphOf(components), path[|path| - 1], id)
      ensures IsCycle(GraphOf(components), cycle)
    {
      var i :| 0 <= i < |path| && path[i] == id;
      BackEdgeCloses(GraphOf(components), path, i, id);
      cycle := path[i..] + [id];
    }

    method VisitDependencies(id: string) returns (ok: bool, ghost cycle: seq<string>)
      requires Valid() && id in components && path != [] && path[|path| - 1] == id
      modifies this
      ensures ok ==> Valid() && visiting == old(visiting) && path == old(path) && old(order) <= order
      ensures ok ==> forall d :: d in components[id].Dependencies() ==> d in complete
      ensures !ok ==> IsCycle(GraphOf(components), cycle)
      decreases components.Keys - visiting, 1
    {
      ok, cycle := true, [];
      var dependencies := components[id].Dependencies();
      var i := 0;
      while i < |dependencies| && ok
        invariant i <= |dependencies|
        invariant ok ==> Valid() && visiting == old(visiting) && path == old(path) && old(order) <= order
        invariant ok ==> forall j :: 0 <= j < i ==> dependencies[j] in complete
        invariant !ok ==> IsCycle(GraphOf(components), cycle)
      {
        assert Edge(GraphOf(components), id, dependencies[i]) && Needs(components, id, dependencies[i]);
        ok, cycle := Visit(dependencies[i]);
        i := i + 1;
      }
    }

    /** The innermost name leaves the path for the end of the order. */
    ghost method Complete(id: string)
      requires Valid() && path != [] && path[|path| - 1] == id && id !in path[..|path| - 1]
      requires forall d :: d in components[id].Dependencies() ==> d in complete
      modifies this`path, this`order
      ensures path == old(path)[..|old(path)| - 1] && order == old(order) + [id]
      ensures IsPath(GraphOf(components), path) && Distinct(order) && DependenciesFirst(GraphOf(components), order)
      ensures forall x :: x in path <==> x in visiting && x != id
    {
      var front, next := path[..|path| - 1], order + [id];
      assert path == front + [id];
      AppendDependent(GraphOf(components), order, id);
      path, order := front, next;
    }
  }

  /**
   Accepts exactly the component maps whose executions are valid, whose dependencies are registered
   and whose dependency relation has no cycle; a rejection for a cycle comes with one.
   */
  method ValidateExecutionGraph(components: Components) returns (r: Option<Rejection>, ghost cycle: seq<string>)
    ensures r.None? <==> AllValid(components) && Registered(components) && forall names :: !Circular(components, names)
    ensures r == Some(CyclicDependencies) ==> AllValid(components) && Registered(components) && Circular(components, cycle)
  {
    forall names
      ensures Circular(components, names) <==> IsCycle(GraphOf(components), names)
    {
      CircularInGraph(components, names);
    }
    cycle := [];
    r := ValidateComponents(components);
    if r.Some? {
      return;
    }
    var search := new Search(components);
    var rest := components.Keys;
    while rest != {}
      invariant search.Valid() && search.path == [] && search.components == components
      invariant rest <= components.Keys && forall id :: id in components && id !in rest ==> id in search.complete
      decreases rest
    {
      var id :| id in rest;
      rest := rest - {id};
      var ok;
      ok, cycle := search.Visit(id);
      if !ok {
        r := Some(CyclicDependencies);
        return;
      }
    }
    OrderedIsAcyclic(GraphOf(components), search.order);
  }
}
