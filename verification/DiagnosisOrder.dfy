/** The order in which a diagnosis lists the observed components of a composition: dependencies first. */
module DiagnosisOrder {
  import opened Domain
  import opened Ordering
  import opened Dependencies
  import opened ExecutionGraph

  /** The observed dependencies of a name in ascending order; others are skipped. */
  function Observed(names: seq<string>, observed: set<string>): (r: seq<string>)
    ensures forall x :: x in r <==> x in names && x in observed
  {
    if names == [] then [] else
      var front := Observed(names[..|names| - 1], observed);
      var last := names[|names| - 1];
      assert names == names[..|names| - 1] + [last];
      if last in observed then front + [last] else front
  }

  lemma ObservedMore(names: seq<string>, i: nat, observed: set<string>)
    requires i < |names|
    ensures Observed(names[..i + 1], observed) ==
            if names[i] in observed then Observed(names[..i], observed) + [names[i]] else Observed(names[..i], observed)
  {
    assert names[..i + 1][..i] == names[..i];
  }

  function DependenciesOf(profiles: Components, name: string): seq<string> {
    if name in profiles then Names(profiles[name].Dependencies()) else []
  }

  /** The dependency graph among observed components. */
  function ObservedGraph(observed: set<string>, profiles: Components): Graph {
    map name | name in observed :: Observed(DependenciesOf(profiles, name), observed)
  }

  // ----- The order as a function -----

  /** What visiting one name appends: nothing if it is listed or on the way, else what it needs and then itself. */
  function Visited(g: Graph, name: string, active: set<string>, done: seq<string>): seq<string>
    decreases g.Keys - active, 0
  {
    if name in done || name in active || name !in g then done
    else VisitedAll(g, g[name], active + {name}, done) + [name]
  }

  function VisitedAll(g: Graph, names: seq<string>, active: set<string>, done: seq<string>): seq<string>
    decreases g.Keys - active, 1, |names|
  {
    if names == [] then done
    else Visited(g, names[|names| - 1], active, VisitedAll(g, names[..|names| - 1], active, done))
  }

  lemma VisitedAllMore(g: Graph, names: seq<string>, name: string, active: set<string>, done: seq<string>)
    ensures VisitedAll(g, names + [name], active, done) == Visited(g, name, active, VisitedAll(g, names, active, done))
  {
    assert (names + [name])[..|names|] == names;
  }

  lemma VisitedNext(g: Graph, names: seq<string>, i: nat, observed: set<string>, active: set<string>, done: seq<string>)
    requires i < |names|
    ensures var before := VisitedAll(g, Observed(names[..i], observed), active, done);
            VisitedAll(g, Observed(names[..i + 1], observed), active, done) ==
            if names[i] in observed then Visited(g, names[i], active, before) else before
  {
    ObservedMore(names, i, observed);
    VisitedAllMore(g, Observed(names[..i], observed), names[i], active, done);
  }

  /** The listing, a function of the observed names and their profiles alone. */
  ghost function ListingOf(observed: set<string>, plan: Option<Components>): seq<string> {
    if plan.None? then SortedKeys(observed)
    else VisitedAll(ObservedGraph(observed, plan.value), SortedKeys(observed), {}, [])
  }

  // ----- The code -----

  class Orderer {
    const observed: set<string>
    const profiles: Components
    var visited: set<string>
    var active: set<string>
    var ordered: seq<string>

    ghost predicate Valid()
      reads this
    {
      && (forall x :: x in visited <==> x in ordered)
      && active <= observed
    }

    constructor (observed: set<string>, profiles: Components)
      ensures Valid() && this.observed == observed && this.profiles == profiles && active == {} && ordered == []
    {
      this.observed, this.profiles, visited, active, ordered := observed, profiles, {}, {}, [];
    }

    method Visit(name: string)
      requires Valid() && name in observed
      modifies this
      ensures Valid() && active == old(active)
      ensures ordered == Visited(ObservedGraph(observed, profiles), name, old(active), old(ordered))
      decreases observed - active, 0
    {
      if name !in visited && name !in active {
        active := active + {name};
        if name in profiles && profiles[name].execution.Some? {
          VisitDependencies(Names(profiles[name].execution.value.dependencies));
        }
        active := active - {name};
        visited := visited + {name};
        ordered := ordered + [name];
      }
    }

    method VisitDependencies(names: seq<string>)
      requires Valid()
      modifies this
      ensures Valid() && active == old(active)
      ensures ordered == VisitedAll(ObservedGraph(observed, profiles), Observed(names, observed), old(active), old(ordered))
      decreases observed - active, 1
    {
      var i := 0;
      ghost var g, before, listed := ObservedGraph(observed, profiles), active, ordered;
      assert names[..0] == [];
      while i < |names|
        invariant i <= |names| && Valid() && active == before
        invariant ordered == VisitedAll(g, Observed(names[..i], observed), before, listed)
      {
        VisitedNext(g, names, i, observed, before, listed);
        if names[i] in observed {
          Visit(names[i]);
        }
        i := i + 1;
      }
      assert names[..i] == names;
    }

    method VisitRoots(names: seq<string>)
      requires Valid() && active == {} && ordered == [] && forall x :: x in names ==> x in observed
      modifies this
      ensures ordered == VisitedAll(ObservedGraph(observed, profiles), names, {}, [])
    {
      ghost var g := ObservedGraph(observed, profiles);
      var i := 0;
      assert names[..0] == [];
      while i < |names|
        invariant i <= |names| && Valid() && active == {}
        invariant ordered == VisitedAll(g, names[..i], {}, [])
      {
        assert names[..i + 1][..i] == names[..i];
        Visit(names[i]);
        i := i + 1;
      }
      assert names[..i] == names;
    }
  }

  /** The listing of an observed set; collecting its keys in any order makes no difference. */
  method OrderedComponentNames(observed: set<string>, plan: Option<Components>) returns (r: seq<string>)
    ensures r == ListingOf(observed, plan)
  {
    var names := ListKeys(observed);
    if plan.None? {
      return names;
    }
    SortedKeysListing(observed);
    var orderer := new Orderer(observed, plan.value);
    orderer.VisitRoots(names);
    return orderer.ordered;
  }

  // ----- Each observed component exactly once, on every graph -----

  /** A listing extends another by names that are new and not on the way. */
  ghost predicate Extends(g: Graph, active: set<string>, before: seq<string>, after: seq<string>) {
    && before <= after && Distinct(after)
    && forall i :: |before| <= i < |after| ==> after[i] in g && after[i] !in active
  }

  lemma {:induction false} VisitedExtends(g: Graph, name: string, active: set<string>, done: seq<string>)
    requires Distinct(done)
    ensures Extends(g, active, done, Visited(g, name, active, done))
    ensures name in g && name !in active ==> name in Visited(g, name, active, done)
    decreases g.Keys - active, 0
  {
    if name !in done && name !in active && name in g {
      VisitedAllExtends(g, g[name], active + {name}, done);
    }
  }

  lemma {:induction false} VisitedAllExtends(g: Graph, names: seq<string>, active: set<string>, done: seq<string>)
    requires Distinct(done)
    ensures Extends(g, active, done, VisitedAll(g, names, active, done))
    ensures forall x :: x in names && x in g && x !in active ==> x in VisitedAll(g, names, active, done)
    decreases g.Keys - active, 1, |names|
  {
    if names != [] {
      var front, last := names[..|names| - 1], names[|names| - 1];
      assert names == front + [last];
      VisitedAllExtends(g, front, active, done);
      var middle := VisitedAll(g, front, active, done);
      VisitedExtends(g, last, active, middle);
      var after := Visited(g, last, active, middle);
      forall x | x in middle
        ensures x in after
      {
        var i :| 0 <= i < |middle| && middle[i] == x;
        assert after[i] == x;
      }
      forall i | |done| <= i < |after|
        ensures after[i] in g && after[i] !in active
      {
        assert i < |middle| ==> after[i] == middle[i];
      }
    }
  }

  /** Cyclic or not, the listing has every observed component exactly once and nothing else. */
  lemma ListsEachOnce(observed: set<string>, plan: Option<Components>)
    ensures Distinct(ListingOf(observed, plan))
    ensures forall x :: x in ListingOf(observed, plan) <==> x in observed
  {
    SortedKeysListing(observed);
    if plan.Some? {
      VisitedAllExtends(ObservedGraph(observed, plan.value), SortedKeys(observed), {}, []);
    }
  }

  // ----- Dependencies first, exactly without cycles -----

  /** The names on the way form a path that ends at whatever depends on the name being visited. */
  ghost predicate OnTheWay(g: Graph, path: seq<string>, active: set<string>, name: string) {
    (forall x :: x in active <==> x in path) && IsPath(g, path + [name])
  }

  lemma {:induction false} VisitedOrders(g: Graph, name: string, path: seq<string>, active: set<string>, done: seq<string>)
    requires Acyclic(g) && Closed(g) && name in g && OnTheWay(g, path, active, name)
    requires Distinct(done) && DependenciesFirst(g, done)
    ensures DependenciesFirst(g, Visited(g, name, active, done)) && name in Visited(g, name, active, done)
    decreases g.Keys - active, 0
  {
    VisitedExtends(g, name, active, done);
    if name in active {
      var i :| 0 <= i < |path| && path[i] == name;
      PathCut(g, path, name);
      BackEdgeCloses(g, path, i, name);
      assert false;
    } else if name !in done {
      VisitedAllOrders(g, name, g[name], path + [name], active + {name}, done);
      var all := VisitedAll(g, g[name], active + {name}, done);
      AppendDependent(g, all, name);
    }
  }

  /** Every dependency named in the graph is a name of the graph. */
  predicate Closed(g: Graph) {
    forall a :: a in g ==> forall b :: b in g[a] ==> b in g
  }

  lemma PathCut(g: Graph, path: seq<string>, name: string)
    requires IsPath(g, path + [name]) && path != []
    ensures IsPath(g, path) && Edge(g, path[|path| - 1], name)
  {
    var p := path + [name];
    assert Edge(g, p[|path| - 1], p[|path|]);
    forall i | 0 <= i < |path| - 1
      ensures Edge(g, path[i], path[i + 1])
    {
      assert Edge(g, p[i], p[i + 1]);
    }
  }

  lemma PathExtended(g: Graph, path: seq<string>, name: string)
    requires IsPath(g, path) && path != [] && Edge(g, path[|path| - 1], name)
    ensures IsPath(g, path + [name])
  {
  }

  lemma {:induction false} VisitedAllOrders(
    g: Graph, owner: string, names: seq<string>, path: seq<string>, active: set<string>, done: seq<string>)
    requires Acyclic(g) && Closed(g) && owner in g && path != [] && path[|path| - 1] == owner
    requires IsPath(g, path) && (forall x :: x in active <==> x in path)
    requires forall x :: x in names ==> Edge(g, owner, x)
    requires Distinct(done) && DependenciesFirst(g, done)
    ensures var r := VisitedAll(g, names, active, done); DependenciesFirst(g, r) && forall x :: x in names ==> x in r
    decreases g.Keys - active, 1, |names|
  {
    if names != [] {
      var front, last := names[..|names| - 1], names[|names| - 1];
      assert names == front + [last];
      VisitedAllOrders(g, owner, front, path, active, done);
      VisitedAllExtends(g, front, active, done);
      var middle := VisitedAll(g, front, active, done);
      PathExtended(g, path, last);
      VisitedOrders(g, last, path, active, middle);
      VisitedExtends(g, last, active, middle);
      assert forall x :: x in middle ==> x in Visited(g, last, active, middle);
    }
  }

  lemma {:induction false} RootsOrdered(g: Graph, names: seq<string>)
    requires Acyclic(g) && Closed(g) && forall x :: x in names ==> x in g
    ensures DependenciesFirst(g, VisitedAll(g, names, {}, []))
  {
    if names != [] {
      var front, last := names[..|names| - 1], names[|names| - 1];
      assert names == front + [last];
      RootsOrdered(g, front);
      VisitedAllExtends(g, front, {}, []);
      VisitedOrders(g, last, [], {}, VisitedAll(g, front, {}, []));
    }
  }

  // ----- In the terms of the profiles -----

  /** Both components are observed, and the declaration of a names b as a dependency. */
  predicate DependsOn(observed: set<string>, profiles: Components, a: string, b: string) {
    && a in observed && b in observed
    && a in profiles && profiles[a].execution.Some? && b in profiles[a].execution.value.dependencies
  }

  /** The graph that is searched has exactly these edges. */
  lemma ObservedEdge(observed: set<string>, profiles: Components, a: string, b: string)
    ensures Edge(ObservedGraph(observed, profiles), a, b) <==> DependsOn(observed, profiles, a, b)
  {
    if a in profiles {
      NamesMembers(profiles[a].Dependencies());
    }
  }

  /** Every component comes after all observed ones that it depends on. */
  ghost predicate ListsDependenciesFirst(observed: set<string>, profiles: Components, r: seq<string>) {
    forall i, d :: 0 <= i < |r| && DependsOn(observed, profiles, r[i], d) ==> d in r[..i]
  }

  /** A way along dependencies that ends where it started. */
  ghost predicate GoesRound(observed: set<string>, profiles: Components, p: seq<string>) {
    |p| >= 2 && p[0] == p[|p| - 1] && forall i :: 0 <= i < |p| - 1 ==> DependsOn(observed, profiles, p[i], p[i + 1])
  }

  lemma GoesRoundInGraph(observed: set<string>, profiles: Components, p: seq<string>)
    ensures GoesRound(observed, profiles, p) <==> IsCycle(ObservedGraph(observed, profiles), p)
  {
    forall i | 0 <= i < |p| - 1
      ensures Edge(ObservedGraph(observed, profiles), p[i], p[i + 1]) <==> DependsOn(observed, profiles, p[i], p[i + 1])
    {
      ObservedEdge(observed, profiles, p[i], p[i + 1]);
    }
  }

  lemma ListsInGraph(observed: set<string>, profiles: Components, r: seq<string>)
    ensures ListsDependenciesFirst(observed, profiles, r) <==> DependenciesFirst(ObservedGraph(observed, profiles), r)
  {
    forall a, b
      ensures Edge(ObservedGraph(observed, profiles), a, b) <==> DependsOn(observed, profiles, a, b)
    {
      ObservedEdge(observed, profiles, a, b);
    }
  }

  /**
   The listing has every component after all observed ones that its declaration depends on, if and only
   if no way along observed dependencies leads back to its start.
   */
  lemma DependenciesFirstExactly(observed: set<string>, profiles: Components)
    ensures ListsDependenciesFirst(observed, profiles, ListingOf(observed, Some(profiles))) <==>
            forall p :: !GoesRound(observed, profiles, p)
  {
    var g, r := ObservedGraph(observed, profiles), ListingOf(observed, Some(profiles));
    ListsEachOnce(observed, Some(profiles));
    ListsInGraph(observed, profiles, r);
    forall p
      ensures GoesRound(observed, profiles, p) <==> IsCycle(g, p)
    {
      GoesRoundInGraph(observed, profiles, p);
    }
    if Acyclic(g) {
      SortedKeysListing(observed);
      RootsOrdered(g, SortedKeys(observed));
    }
    if DependenciesFirst(g, r) {
      OrderedIsAcyclic(g, r);
    }
  }

  /** On a plan that graph validation accepts, every component comes after all observed ones that it depends on. */
  lemma ValidatedPlansAreOrdered(observed: set<string>, profiles: Components)
    requires AllValid(profiles) && Registered(profiles) && Acyclic(GraphOf(profiles))
    ensures var r := ListingOf(observed, Some(profiles));
            forall i, d :: 0 <= i < |r| && r[i] in profiles && profiles[r[i]].execution.Some? && d in observed ==>
              d in profiles[r[i]].execution.value.dependencies ==>
              d in r[..i]
  {
    var g := ObservedGraph(observed, profiles);
    forall a, b | Edge(g, a, b)
      ensures Edge(GraphOf(profiles), a, b)
    {
      ObservedEdge(observed, profiles, a, b);
    }
    SubgraphAcyclic(GraphOf(profiles), g);
    forall p
      ensures !GoesRound(observed, profiles, p)
    {
      GoesRoundInGraph(observed, profiles, p);
    }
    DependenciesFirstExactly(observed, profiles);
    var r := ListingOf(observed, Some(profiles));
    ListsEachOnce(observed, Some(profiles));
    forall i, d | 0 <= i < |r| && r[i] in profiles && profiles[r[i]].execution.Some? && d in observed &&
        d in profiles[r[i]].execution.value.dependencies
      ensures d in r[..i]
    {
      assert r[i] in r;
      assert DependsOn(observed, profiles, r[i], d);
    }
  }

  // ----- Among components that do not depend on each other -----

  lemma {:induction false} IndependentInOrder(g: Graph, names: seq<string>)
    requires Distinct(names) && forall x :: x in names ==> x in g && g[x] == []
    ensures VisitedAll(g, names, {}, []) == names
  {
    if names != [] {
      var front, last := names[..|names| - 1], names[|names| - 1];
      assert names == front + [last];
      IndependentInOrder(g, front);
      assert last in names && VisitedAll(g, [], {} + {last}, front) == front;
      assert Visited(g, last, {}, front) == front + [last];
    }
  }

  /** Without dependencies among the observed components the listing is alphabetical, as it is without a plan. */
  lemma IndependentAlphabetical(observed: set<string>, plan: Option<Components>)
    requires plan.Some? ==> forall a, b :: !DependsOn(observed, plan.value, a, b)
    ensures Sorted(ListingOf(observed, plan), Self)
  {
    SortedKeysListing(observed);
    if plan.Some? {
      var g := ObservedGraph(observed, plan.value);
      forall x | x in g
        ensures g[x] == []
      {
        if g[x] != [] {
          ObservedEdge(observed, plan.value, x, g[x][0]);
          assert Edge(g, x, g[x][0]);
        }
      }
      IndependentInOrder(g, SortedKeys(observed));
    }
  }

  /** The order in which a declaration names its dependencies makes no difference. */
  lemma DeclarationOrder(observed: set<string>, a: Components, b: Components)
    requires forall k :: k in a <==> k in b
    requires forall k :: k in a ==> multiset(a[k].Dependencies()) == multiset(b[k].Dependencies())
    ensures ListingOf(observed, Some(a)) == ListingOf(observed, Some(b))
  {
    forall k | k in observed
      ensures DependenciesOf(a, k) == DependenciesOf(b, k)
    {
      if k in a {
        SortCanonical(a[k].Dependencies(), b[k].Dependencies(), Self);
      }
    }
    assert ObservedGraph(observed, a) == ObservedGraph(observed, b);
  }
}
