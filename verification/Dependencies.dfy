/** Dependency graphs between named components: paths, cycles, and the orders that exclude them. */
module Dependencies {
  import opened Ordering

  /** Each name with the names it depends on. */
  type Graph = map<string, seq<string>>

  predicate Edge(g: Graph, a: string, b: string) {
    a in g && b in g[a]
  }

  predicate IsPath(g: Graph, p: seq<string>) {
    forall i :: 0 <= i < |p| - 1 ==> Edge(g, p[i], p[i + 1])
  }

  /** A path of at least one edge back to where it started. */
  predicate IsCycle(g: Graph, p: seq<string>) {
    |p| >= 2 && p[0] == p[|p| - 1] && IsPath(g, p)
  }

  ghost predicate Acyclic(g: Graph) {
    forall p :: !IsCycle(g, p)
  }

  /** Every name comes after everything it depends on. */
  ghost predicate DependenciesFirst(g: Graph, order: seq<string>) {
    forall i, b :: 0 <= i < |order| && Edge(g, order[i], b) ==> b in order[..i]
  }

  /** A name may follow once everything it depends on is listed. */
  lemma AppendDependent(g: Graph, order: seq<string>, name: string)
    requires DependenciesFirst(g, order) && forall b :: Edge(g, name, b) ==> b in order
    ensures DependenciesFirst(g, order + [name])
  {
    var next := order + [name];
    forall i, b | 0 <= i < |next| && Edge(g, next[i], b)
      ensures b in next[..i]
    {
      assert next[..i] == order[..i];
    }
  }

  lemma PathRest(g: Graph, p: seq<string>)
    requires IsPath(g, p) && p != []
    ensures IsPath(g, p[1..])
  {
    forall m | 0 <= m < |p[1..]| - 1
      ensures Edge(g, p[1..][m], p[1..][m + 1])
    {
      assert Edge(g, p[m + 1], p[m + 2]);
    }
  }

  /** Once such an order covers the start of a path, it covers the path, further and further left. */
  lemma {:induction false} PathGoesLeft(g: Graph, order: seq<string>, p: seq<string>, i: nat) returns (j: nat)
    requires DependenciesFirst(g, order) && Distinct(order) && IsPath(g, p) && p != [] && i < |order| && order[i] == p[0]
    ensures j <= i && order[j] == p[|p| - 1] && (|p| >= 2 ==> j < i)
    decreases |p|
  {
    if |p| == 1 {
      j := i;
    } else {
      assert Edge(g, p[0], p[1]);
      var k :| 0 <= k < i && order[..i][k] == p[1];
      PathRest(g, p);
      j := PathGoesLeft(g, order, p[1..], k);
    }
  }

  lemma OrderedIsAcyclic(g: Graph, order: seq<string>)
    requires DependenciesFirst(g, order) && Distinct(order) && forall a :: a in g ==> a in order
    ensures Acyclic(g)
  {
    forall p
      ensures !IsCycle(g, p)
    {
      if IsCycle(g, p) {
        assert Edge(g, p[0], p[1]);
        var i :| 0 <= i < |order| && order[i] == p[0];
        var j := PathGoesLeft(g, order, p, i);
        assert false;
      }
    }
  }

  /** A name that a path from it reaches again closes a cycle. */
  lemma BackEdgeCloses(g: Graph, path: seq<string>, i: nat, name: string)
    requires IsPath(g, path) && i < |path| && path[i] == name && Edge(g, path[|path| - 1], name)
    ensures IsCycle(g, path[i..] + [name])
  {
    var p := path[i..] + [name];
    forall k | 0 <= k < |p| - 1
      ensures Edge(g, p[k], p[k + 1])
    {
      if k < |p| - 2 {
        assert Edge(g, path[i + k], path[i + k + 1]);
      }
    }
  }

  /** A subgraph of an acyclic graph is acyclic. */
  lemma SubgraphAcyclic(g: Graph, sub: Graph)
    requires Acyclic(g) && forall a, b :: Edge(sub, a, b) ==> Edge(g, a, b)
    ensures Acyclic(sub)
  {
    forall p
      ensures !IsCycle(sub, p)
    {
      if IsCycle(sub, p) {
        assert IsCycle(g, p);
      }
    }
  }
}
