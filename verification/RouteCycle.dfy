/**
 One scan shares a successful provider call among identical snapshots. The provider is a set of
 resources that a call moves towards what the snapshot renders to: all of them when it succeeds, any
 part of them when it fails or is not ready yet.
 */
module RouteCycle {
  import opened Domain
  import opened RouteTable

  type Resources = map<string, string>

  /** What happens to a provider call: it completes, or it touches some resources and reports failure or delay. */
  datatype Fate = Complete | PartWay(touched: set<string>, failed: bool)

  datatype Answer = Accepted | Waiting | Refused

  /** A call moves the touched resources to their targets and leaves the others. */
  function Toward(now: Resources, target: Resources, touched: set<string>): Resources {
    map k | k in now.Keys + target.Keys && (if k in touched then k in target else k in now) ::
      if k in touched then target[k] else now[k]
  }

  function Called(now: Resources, target: Resources, fate: Fate): Resources {
    match fate
    case Complete => target
    case PartWay(touched, _) => Toward(now, target, touched)
  }

  function AnswerOf(fate: Fate): Answer {
    match fate
    case Complete => Accepted
    case PartWay(_, failed) => if failed then Refused else Waiting
  }

  /** What was touched is as it should be, the rest as it was. */
  ghost predicate Mixed(before: Resources, target: Resources, touched: set<string>, after: Resources) {
    forall k ::
      && (k in after <==> if k in touched then k in target else k in before)
      && (k in after ==> after[k] == if k in touched then target[k] else before[k])
  }

  /** The provider's resources, the snapshot that may be reused, and the last answer. */
  datatype Cycle = Cycle(resources: Resources, applied: Option<Snapshot>, answer: Answer)

  /** The simple form: every request calls the provider. */
  function Always(render: Snapshot -> Resources, resources: Resources, requests: seq<(Snapshot, Fate)>): Resources {
    if requests == [] then resources else
      var (s, fate) := requests[|requests| - 1];
      Called(Always(render, resources, requests[..|requests| - 1]), render(s), fate)
  }

  /** The fast form: a request for the snapshot that was applied last calls nothing. */
  function Cached(render: Snapshot -> Resources, resources: Resources, requests: seq<(Snapshot, Fate)>): Cycle {
    if requests == [] then Cycle(resources, None, Waiting) else
      CachedCall(render, Cached(render, resources, requests[..|requests| - 1]), requests[|requests| - 1].0, requests[|requests| - 1].1)
  }

  function CachedCall(render: Snapshot -> Resources, before: Cycle, s: Snapshot, fate: Fate): Cycle {
    if before.applied == Some(s) then before.(answer := Accepted)
    else Cycle(Called(before.resources, render(s), fate), if fate.Complete? then Some(s) else None, AnswerOf(fate))
  }

  class Cycler {
    const render: Snapshot -> Resources
    ghost const started: Resources
    var resources: Resources
    var applied: Option<Snapshot>
    ghost var requests: seq<(Snapshot, Fate)>

    ghost predicate Valid()
      reads this
    {
      var cycle := Cached(render, started, requests);
      resources == cycle.resources && applied == cycle.applied
    }

    /** A scan starts without anything to reuse, so external drift is always corrected. */
    constructor (render: Snapshot -> Resources, resources: Resources)
      ensures Valid() && requests == [] && this.render == render && this.started == this.resources == resources
    {
      this.render, this.started, this.resources, this.applied := render, resources, resources, None;
      this.requests := [];
    }

    method Sync(s: Snapshot, fate: Fate) returns (answer: Answer)
      requires Valid()
      modifies this
      ensures Valid() && requests == old(requests) + [(s, fate)]
      ensures answer == Cached(render, started, requests).answer
      ensures if old(applied) == Some(s) then answer.Accepted? && applied == Some(s) && resources == old(resources)
              else if fate.Complete? then answer.Accepted? && applied == Some(s) && resources == render(s)
              else answer == (if fate.failed then Refused else Waiting) && applied == None
                   && Mixed(old(resources), render(s), fate.touched, resources)
    {
      ghost var before := requests;
      requests := requests + [(s, fate)];
      assert requests[..|requests| - 1] == before;
      if applied == Some(s) {
        return Accepted;
      }
      applied := None;
      resources := Called(resources, render(s), fate);
      answer := AnswerOf(fate);
      if answer.Accepted? {
        applied := Some(s);
      }
    }
  }

  lemma NothingToDo(target: Resources, fate: Fate)
    ensures Called(target, target, fate) == target
  {
  }

  /** While a snapshot may be reused, the provider holds exactly its resources. */
  lemma {:induction false} ReuseIsCurrent(render: Snapshot -> Resources, resources: Resources, requests: seq<(Snapshot, Fate)>)
    ensures var cycle := Cached(render, resources, requests);
            cycle.applied.Some? ==> cycle.resources == render(cycle.applied.value)
  {
    if requests != [] {
      ReuseIsCurrent(render, resources, requests[..|requests| - 1]);
    }
  }

  /** Whatever the requests and however their calls end, the cache leaves the provider where always calling would. */
  lemma {:induction false} CacheRefines(render: Snapshot -> Resources, resources: Resources, requests: seq<(Snapshot, Fate)>)
    ensures Cached(render, resources, requests).resources == Always(render, resources, requests)
  {
    if requests != [] {
      var front := requests[..|requests| - 1];
      var (s, fate) := requests[|requests| - 1];
      CacheRefines(render, resources, front);
      ReuseIsCurrent(render, resources, front);
      if Cached(render, resources, front).applied == Some(s) {
        NothingToDo(render(s), fate);
      }
    }
  }

  /** A request that is accepted, called or not, finds the provider with what it asked for. */
  lemma ReadyIsTrue(render: Snapshot -> Resources, resources: Resources, requests: seq<(Snapshot, Fate)>)
    requires requests != [] && Cached(render, resources, requests).answer.Accepted?
    ensures Always(render, resources, requests) == render(requests[|requests| - 1].0)
  {
    CacheRefines(render, resources, requests);
    ReuseIsCurrent(render, resources, requests[..|requests| - 1]);
  }

  /** The cache as it must not be: a failed call leaves the earlier snapshot reusable. */
  function Careless(render: Snapshot -> Resources, before: Cycle, s: Snapshot, fate: Fate): Cycle {
    var after := CachedCall(render, before, s, fate);
    if fate.Complete? then after else after.(applied := before.applied)
  }

  /** With it, a call for t that failed on one resource lets the next request for s be accepted over the mixture. */
  lemma ForgettingMatters(render: Snapshot -> Resources, s: Snapshot, t: Snapshot, k: string, resources: Resources)
    requires s != t && k in render(s) && (k in render(t) ==> render(t)[k] != render(s)[k])
    ensures var first := Careless(render, Cycle(resources, None, Waiting), s, Complete);
            var second := Careless(render, first, t, PartWay({k}, true));
            var third := Careless(render, second, s, Complete);
            third.answer.Accepted? && third.resources != render(s)
  {
    var mixture := Called(render(s), render(t), PartWay({k}, true));
    assert k in mixture <==> k in render(t);
  }
}
