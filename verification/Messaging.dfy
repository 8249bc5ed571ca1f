/** Message isolation: which subscriptions a composition gets, and which environment its workloads see. */
module Messaging {
  import opened Domain
  import opened Ordering
  import opened ExecutionGraph
  import opened Filters
  import opened Slashes

  const ISOLATION_FLAG := "ENVY_MESSAGE_ISOLATION"
  const ZERO_ID := "00000000000000000000000000000000"

  // ----- Names -----

  predicate Letter(ch: char) { 'a' <= ch <= 'z' || 'A' <= ch <= 'Z' }

  predicate Digit(ch: char) { '0' <= ch <= '9' }

  predicate HasPrefix(s: string, prefix: string) {
    |prefix| <= |s| && s[..|prefix|] == prefix
  }

  predicate Contains(s: string, part: string) {
    HasPrefix(s, part) || (s != [] && Contains(s[1..], part))
  }

  predicate ProjectName(s: string) {
    s != "" && (Letter(s[0]) || Digit(s[0])) &&
    forall i :: 0 <= i < |s| ==> Letter(s[i]) || Digit(s[i]) || s[i] in ".:-"
  }

  predicate ResourceName(s: string) {
    3 <= |s| <= 255 && Letter(s[0]) && forall i :: 0 <= i < |s| ==> Letter(s[i]) || Digit(s[i]) || s[i] in "._~+%-"
  }

  /** A fully qualified topic or subscription name. */
  predicate PubSubResource(s: string) {
    var p := Parts(s);
    |p| == 4 && p[0] == "projects" && ProjectName(p[1]) && (p[2] == "topics" || p[2] == "subscriptions") && ResourceName(p[3])
  }

  predicate EnvironmentName(s: string) {
    1 <= |s| <= 128 && (Letter(s[0]) || s[0] == '_') && forall i :: 0 <= i < |s| ==> Letter(s[i]) || Digit(s[i]) || s[i] == '_'
  }

  predicate Assignable(env: string) {
    EnvironmentName(env) && !HasPrefix(env, "ENVY_") && env != "POD_UID"
  }

  function Isolation(id: string): string {
    "attributes.envy_composition = \"" + id + "\""
  }

  predicate BusinessFilter(filter: string) {
    && Balanced(filter) && !Contains(filter, "envy_composition")
    && |MessageFilter(Isolation(ZERO_ID), filter)| <= 256
    && '\r' !in filter && '\n' !in filter && '\0' !in filter
  }

  // ----- What a valid baseline declares -----

  /** A consumer where it is declared: the logical topic, its name there, and the binding. */
  datatype Place = Place(topic: string, id: string, consumer: Consumer)

  predicate IsPlace(b: Baseline, p: Place) {
    p.topic in b.pubsub && p.id in b.pubsub[p.topic].consumers && b.pubsub[p.topic].consumers[p.id] == p.consumer
  }

  function PlaceOf(b: Baseline, t: string, k: string): Place
    requires t in b.pubsub && k in b.pubsub[t].consumers
  {
    Place(t, k, b.pubsub[t].consumers[k])
  }

  function Places(b: Baseline): (r: set<Place>)
    ensures forall p :: p in r <==> IsPlace(b, p)
  {
    var r := set t, k | t in b.pubsub && k in b.pubsub[t].consumers :: PlaceOf(b, t, k);
    assert forall p :: IsPlace(b, p) ==> p == PlaceOf(b, p.topic, p.id);
    r
  }

  predicate ValidTopic(b: Baseline, name: string, topic: Topic) {
    && ValidCatalogID(name) && PubSubResource(topic.name) && Contains(topic.name, "/topics/")
    && topic.publishers != [] && topic.consumers != map[] && BoundPublishers(b, topic.publishers)
  }

  predicate ValidConsumer(b: Baseline, id: string, c: Consumer) {
    && ValidCatalogID(id) && PubSubResource(c.subscription) && Contains(c.subscription, "/subscriptions/")
    && c.component in b.components && Assignable(c.subscriptionEnv) && BusinessFilter(c.filter)
  }

  function EnvironmentKey(c: Consumer): string {
    c.component + "/" + c.subscriptionEnv
  }

  ghost predicate DistinctTopics(b: Baseline, names: set<string>) {
    forall s, t :: s in names && t in names && s in b.pubsub && t in b.pubsub && b.pubsub[s].name == b.pubsub[t].name ==> s == t
  }

  ghost predicate DistinctConsumers(places: set<Place>) {
    forall p, q :: p in places && q in places && p != q ==>
      p.consumer.subscription != q.consumer.subscription && EnvironmentKey(p.consumer) != EnvironmentKey(q.consumer)
  }

  ghost predicate ValidMessaging(b: Baseline) {
    && |b.pubsub| <= 20 && |Places(b)| <= 40
    && (forall t :: t in b.pubsub ==> ValidTopic(b, t, b.pubsub[t]))
    && (forall p :: p in Places(b) ==> ValidConsumer(b, p.id, p.consumer))
    && DistinctTopics(b, b.pubsub.Keys) && DistinctConsumers(Places(b))
  }

  // ----- Validation -----

  function TopicsAt(b: Baseline, names: set<string>): set<string> {
    set t | t in names && t in b.pubsub :: b.pubsub[t].name
  }

  function SubscriptionsAt(places: set<Place>): set<string> {
    set p | p in places :: p.consumer.subscription
  }

  function KeysAt(places: set<Place>): set<string> {
    set p | p in places :: EnvironmentKey(p.consumer)
  }

  lemma OneMore(places: set<Place>, p: Place)
    requires p !in places
    ensures SubscriptionsAt(places + {p}) == SubscriptionsAt(places) + {p.consumer.subscription}
    ensures KeysAt(places + {p}) == KeysAt(places) + {EnvironmentKey(p.consumer)}
    ensures DistinctConsumers(places + {p}) <==>
            DistinctConsumers(places) && p.consumer.subscription !in SubscriptionsAt(places) && EnvironmentKey(p.consumer) !in KeysAt(places)
  {
    var all := places + {p};
    if DistinctConsumers(all) {
      forall q | q in places
        ensures q.consumer.subscription != p.consumer.subscription && EnvironmentKey(q.consumer) != EnvironmentKey(p.consumer)
      {
        assert q in all && p in all && q != p;
      }
    }
  }

  /** Topics and consumers checked so far, all valid and distinct. */
  ghost predicate Checked(b: Baseline, names: set<string>, places: set<Place>) {
    && names <= b.pubsub.Keys && (forall p :: p in places ==> IsPlace(b, p) && ValidConsumer(b, p.id, p.consumer))
    && (forall t :: t in names ==> ValidTopic(b, t, b.pubsub[t]))
    && DistinctTopics(b, names) && DistinctConsumers(places)
  }

  /** What a validation has noted of the topics and consumers seen so far. */
  datatype Notes = Notes(topics: set<string>, subscriptions: set<string>, environments: set<string>, consumerCount: nat)

  /** Notes that are exactly those of checked topics and consumers. */
  ghost predicate Accurate(b: Baseline, n: Notes, names: set<string>, places: set<Place>) {
    && Checked(b, names, places)
    && n.topics == TopicsAt(b, names) && n.subscriptions == SubscriptionsAt(places) && n.environments == KeysAt(places)
    && n.consumerCount == |places|
  }

  ghost function NotesOf(b: Baseline, names: set<string>, places: set<Place>): iset<Notes> {
    iset n: Notes | Accurate(b, n, names, places)
  }

  function WithConsumer(n: Notes, c: Consumer): Notes {
    n.(subscriptions := n.subscriptions + {c.subscription}, environments := n.environments + {EnvironmentKey(c)},
       consumerCount := n.consumerCount + 1)
  }

  predicate AllowsConsumer(b: Baseline, n: Notes, id: string, c: Consumer) {
    ValidConsumer(b, id, c) && c.subscription !in n.subscriptions && EnvironmentKey(c) !in n.environments
  }

  lemma ConsumerNoted(b: Baseline, n: Notes, names: set<string>, places: set<Place>, p: Place)
    requires n in NotesOf(b, names, places) && IsPlace(b, p) && p !in places
    ensures AllowsConsumer(b, n, p.id, p.consumer) ==> WithConsumer(n, p.consumer) in NotesOf(b, names, places + {p})
    ensures !AllowsConsumer(b, n, p.id, p.consumer) ==> !Checked(b, names, places + {p})
  {
    OneMore(places, p);
    if Checked(b, names, places + {p}) {
      assert p in places + {p};
    }
  }

  method ConsumerAllowed(b: Baseline, n: Notes, id: string, c: Consumer) returns (ok: bool)
    ensures ok <==> AllowsConsumer(b, n, id, c)
  {
    if !ValidCatalogID(id) || !PubSubResource(c.subscription) || !Contains(c.subscription, "/subscriptions/") || c.subscription in n.subscriptions {
      return false;
    }
    if c.component !in b.components {
      return false;
    }
    if !Assignable(c.subscriptionEnv) || EnvironmentKey(c) in n.environments {
      return false;
    }
    return BusinessFilter(c.filter);
  }

  /** Every part of a valid baseline passes. */
  lemma PartsChecked(b: Baseline, names: set<string>, places: set<Place>)
    requires names <= b.pubsub.Keys && forall p :: p in places ==> IsPlace(b, p)
    ensures ValidMessaging(b) ==> Checked(b, names, places)
  {
    assert places <= Places(b);
  }

  predicate AllowsTopic(b: Baseline, n: Notes, name: string, topic: Topic) {
    ValidTopic(b, name, topic) && topic.name !in n.topics
  }

  lemma TopicNoted(b: Baseline, n: Notes, names: set<string>, places: set<Place>, name: string)
    requires n in NotesOf(b, names, places) && name in b.pubsub && name !in names
    ensures AllowsTopic(b, n, name, b.pubsub[name]) ==>
              n.(topics := n.topics + {b.pubsub[name].name}) in NotesOf(b, names + {name}, places)
    ensures !AllowsTopic(b, n, name, b.pubsub[name]) ==> !Checked(b, names + {name}, places)
  {
    var all := names + {name};
    assert TopicsAt(b, all) == TopicsAt(b, names) + {b.pubsub[name].name};
    assert name in all;
    if t :| t in names && b.pubsub[t].name == b.pubsub[name].name {
      assert t in all;
    }
  }

  method TopicAllowed(b: Baseline, n: Notes, name: string, topic: Topic) returns (ok: bool)
    ensures ok <==> AllowsTopic(b, n, name, topic)
  {
    if !ValidCatalogID(name) || !PubSubResource(topic.name) || !Contains(topic.name, "/topics/") || topic.name in n.topics {
      return false;
    }
    if |topic.publishers| == 0 || topic.consumers == map[] {
      return false;
    }
    ok := ValidatePublishers(b, topic.publishers);
  }

  predicate BoundPublishers(b: Baseline, publishers: seq<string>) {
    forall i :: 0 <= i < |publishers| ==> publishers[i] in b.components && publishers[i] !in publishers[..i]
  }

  method ValidatePublishers(b: Baseline, publishers: seq<string>) returns (ok: bool)
    ensures ok <==> BoundPublishers(b, publishers)
  {
    var seen: set<string> := {};
    for i := 0 to |publishers|
      invariant forall x :: x in seen <==> x in publishers[..i]
      invariant forall j :: 0 <= j < i ==> publishers[j] in b.components && publishers[j] !in publishers[..j]
    {
      if publishers[i] !in b.components || publishers[i] in seen {
        return false;
      }
      seen := seen + {publishers[i]};
    }
    return true;
  }

  class MessagingValidation {
    const baseline: Baseline
    var notes: Notes
    ghost var checked: set<string>    // the logical topics seen so far
    ghost var bound: set<Place>       // the consumers seen so far

    ghost predicate Valid()
      reads this
    {
      notes in NotesOf(baseline, checked, bound)
    }

    constructor (b: Baseline)
      ensures Valid() && baseline == b && checked == {} && bound == {}
    {
      baseline, notes, checked, bound := b, Notes({}, {}, {}, 0), {}, {};
    }

    method ValidateConsumer(id: string, c: Consumer, ghost p: Place) returns (ok: bool)
      requires Valid() && IsPlace(baseline, p) && p.id == id && p.consumer == c && p !in bound
      modifies this
      ensures checked == old(checked)
      ensures ok ==> Valid() && bound == old(bound) + {p}
      ensures !ok ==> !Checked(baseline, checked, old(bound) + {p})
    {
      ConsumerNoted(baseline, notes, checked, bound, p);
      ok := ConsumerAllowed(baseline, notes, id, c);
      if ok {
        notes := WithConsumer(notes, c);
        bound := bound + {p};
      }
    }

    method ValidateConsumers(name: string, topic: Topic) returns (ok: bool)
      requires Valid() && name in baseline.pubsub && baseline.pubsub[name] == topic
      requires forall p :: p in bound ==> p.topic != name
      modifies this
      ensures checked == old(checked)
      ensures ok ==> Valid() && forall p :: p in bound <==> p in old(bound) || (IsPlace(baseline, p) && p.topic == name)
      ensures !ok ==> !ValidMessaging(baseline)
    {
      ok := true;
      var rest := topic.consumers.Keys;
      while rest != {} && ok
        invariant rest <= topic.consumers.Keys && checked == old(checked)
        invariant ok ==> Valid()
        invariant ok ==> forall p :: p in bound <==> p in old(bound) || (IsPlace(baseline, p) && p.topic == name && p.id !in rest)
        invariant !ok ==> !ValidMessaging(baseline)
        decreases rest
      {
        var id :| id in rest;
        ghost var p := PlaceOf(baseline, name, id);
        ghost var before := bound;
        ok := ValidateConsumer(id, topic.consumers[id], p);
        rest := rest - {id};
        if !ok {
          PartsChecked(baseline, checked, before + {p});
        }
      }
    }

    method ValidateTopic(name: string, topic: Topic) returns (ok: bool)
      requires Valid() && name in baseline.pubsub && baseline.pubsub[name] == topic && name !in checked
      requires forall p :: p in bound <==> IsPlace(baseline, p) && p.topic in checked
      modifies this
      ensures ok ==> Valid() && checked == old(checked) + {name} && forall p :: p in bound <==> IsPlace(baseline, p) && p.topic in checked
      ensures !ok ==> !ValidMessaging(baseline)
    {
      TopicNoted(baseline, notes, checked, bound, name);
      ok := TopicAllowed(baseline, notes, name, topic);
      if ok {
        notes := notes.(topics := notes.topics + {topic.name});
        checked := checked + {name};
        ok := ValidateConsumers(name, topic);
      } else {
        PartsChecked(baseline, checked + {name}, bound);
      }
    }
  }

  /** Accepts exactly the valid baselines, whatever the order in which topics and consumers are walked. */
  method ValidateMessaging(b: Baseline) returns (ok: bool)
    ensures ok <==> ValidMessaging(b)
  {
    if |b.pubsub| > 20 {
      return false;
    }
    var state := new MessagingValidation(b);
    var rest := b.pubsub.Keys;
    ok := true;
    while rest != {} && ok
      invariant rest <= b.pubsub.Keys && state.baseline == b
      invariant ok ==> state.Valid() && state.checked == b.pubsub.Keys - rest
      invariant ok ==> forall p :: p in state.bound <==> IsPlace(b, p) && p.topic in state.checked
      invariant !ok ==> !ValidMessaging(b)
      decreases rest
    {
      var name :| name in rest;
      rest := rest - {name};
      ok := state.ValidateTopic(name, b.pubsub[name]);
    }
    if ok {
      assert state.bound == Places(b) && state.checked == b.pubsub.Keys;
      ok := state.notes.consumerCount <= 40;
    }
  }

  // ----- Subscriptions of a composition -----

  /** The cut and hexadecimal form of a digest; twenty bytes. */
  type Digest = string -> string

  predicate Qualified(b: Baseline) {
    forall t :: t in b.pubsub ==> '/' in b.pubsub[t].name
  }

  function Identity(installation: string, id: string, p: Place): string {
    installation + "/" + id + "/" + p.topic + "/" + p.id
  }

  function SubscriptionFor(b: Baseline, installation: string, id: string, digest: Digest, p: Place): MessageSubscription
    requires Qualified(b) && IsPlace(b, p)
  {
    var topic := b.pubsub[p.topic].name;
    MessageSubscription(
      "projects/" + Parts(topic)[1] + "/subscriptions/envy-" + digest(Identity(installation, id, p)), topic,
      p.consumer.component, p.consumer.subscriptionEnv, MessageFilter(Isolation(id), p.consumer.filter), false)
  }

  function NameOf(s: MessageSubscription): string { s.name }

  function SubscriptionsFor(b: Baseline, installation: string, id: string, digest: Digest, places: seq<Place>): seq<MessageSubscription>
    requires Qualified(b) && forall p :: p in places ==> IsPlace(b, p)
  {
    seq(|places|, i requires 0 <= i < |places| => SubscriptionFor(b, installation, id, digest, places[i]))
  }

  /** Every place exactly once, in some order. */
  ghost predicate Lists(b: Baseline, places: seq<Place>) {
    Distinct(places) && forall p :: p in places <==> IsPlace(b, p)
  }

  /** One subscription for each consumer of the baseline, sorted by name. */
  method ResolveMessaging(b: Baseline, installation: string, id: string, digest: Digest)
    returns (out: seq<MessageSubscription>, ghost places: seq<Place>)
    requires Qualified(b)
    ensures ResolvedFor(b, installation, id, digest, out) && Sorted(out, NameOf) && |out| == |Places(b)|
    ensures Lists(b, places)
    ensures out == SortBy(SubscriptionsFor(b, installation, id, digest, places), NameOf)
  {
    out, places := [], [];
    var topics := b.pubsub.Keys;
    while topics != {}
      invariant topics <= b.pubsub.Keys && Distinct(places)
      invariant forall p :: p in places <==> IsPlace(b, p) && p.topic !in topics
      invariant out == SubscriptionsFor(b, installation, id, digest, places)
      decreases topics
    {
      var name :| name in topics;
      topics := topics - {name};
      var consumers := b.pubsub[name].consumers.Keys;
      while consumers != {}
        invariant consumers <= b.pubsub[name].consumers.Keys && Distinct(places)
        invariant forall p :: p in places <==> IsPlace(b, p) && p.topic !in topics && (p.topic == name ==> p.id !in consumers)
        invariant out == SubscriptionsFor(b, installation, id, digest, places)
        decreases consumers
      {
        var consumer :| consumer in consumers;
        consumers := consumers - {consumer};
        var p := PlaceOf(b, name, consumer);
        out, places := out + [SubscriptionFor(b, installation, id, digest, p)], places + [p];
      }
    }
    out := SortBy(out, NameOf);
    ResolveMeans(b, installation, id, digest, places);
    ListedCount(places, Places(b));
  }

  lemma {:induction false} ListedCount(places: seq<Place>, all: set<Place>)
    requires Distinct(places) && forall p :: p in places <==> p in all
    ensures |places| == |all|
  {
    if places == [] {
      assert all == {};
    } else {
      assert forall p :: p in places[1..] ==> p in places && p != places[0];
      ListedCount(places[1..], all - {places[0]});
    }
  }

  // ----- The environment of a workload -----

  function FlagText(isolated: bool): string {
    if isolated then "true" else "false"
  }

  function VariablesAt(places: set<Place>, component: string): set<string> {
    set p | p in places && p.consumer.component == component :: p.consumer.subscriptionEnv
  }

  function Variables(b: Baseline, component: string): set<string> {
    VariablesAt(Places(b), component)
  }

  function BlankFor(variables: set<string>, isolated: bool): map<string, string> {
    map[ISOLATION_FLAG := FlagText(isolated)] + map env | env in variables :: ""
  }

  function Blank(b: Baseline, component: string, isolated: bool): map<string, string> {
    BlankFor(Variables(b, component), isolated)
  }

  function Overlaid(env: map<string, string>, component: string, subscriptions: seq<MessageSubscription>): map<string, string> {
    if subscriptions == [] then env else
      var before := Overlaid(env, component, subscriptions[..|subscriptions| - 1]);
      var s := subscriptions[|subscriptions| - 1];
      if s.component == component then before[s.subscriptionEnv := s.name] else before
  }

  function EnvironmentOf(b: Baseline, component: string, isolated: bool, subscriptions: seq<MessageSubscription>): map<string, string> {
    if isolated then Overlaid(Blank(b, component, isolated), component, subscriptions) else Blank(b, component, isolated)
  }

  lemma OneBlankMore(places: set<Place>, component: string, isolated: bool, p: Place)
    ensures BlankFor(VariablesAt(places + {p}, component), isolated) ==
            if p.consumer.component == component
            then BlankFor(VariablesAt(places, component), isolated)[p.consumer.subscriptionEnv := ""]
            else BlankFor(VariablesAt(places, component), isolated)
  {
    assert VariablesAt(places + {p}, component) ==
           VariablesAt(places, component) + if p.consumer.component == component then {p.consumer.subscriptionEnv} else {};
  }

  /** Every subscription variable of the component, copied from the baseline's own deployment, is blanked. */
  method BlankEnvironment(b: Baseline, component: string, isolated: bool) returns (env: map<string, string>)
    ensures env == Blank(b, component, isolated)
  {
    env := map[ISOLATION_FLAG := FlagText(isolated)];
    var rest := Places(b);
    ghost var seen: set<Place> := {};
    assert env == BlankFor(VariablesAt({}, component), isolated);
    while rest != {}
      invariant seen + rest == Places(b)
      invariant env == BlankFor(VariablesAt(seen, component), isolated)
      decreases rest
    {
      var p :| p in rest;
      rest := rest - {p};
      OneBlankMore(seen, component, isolated, p);
      seen := seen + {p};
      if p.consumer.component == component {
        env := env[p.consumer.subscriptionEnv := ""];
      }
    }
    assert seen == Places(b);
  }

  method MessagingEnvironment(b: Baseline, component: string, isolated: bool, subscriptions: seq<MessageSubscription>)
    returns (env: map<string, string>)
    ensures env == EnvironmentOf(b, component, isolated, subscriptions)
  {
    env := BlankEnvironment(b, component, isolated);
    if isolated {
      ghost var blank := env;
      var i := 0;
      while i < |subscriptions|
        invariant i <= |subscriptions|
        invariant env == Overlaid(blank, component, subscriptions[..i])
      {
        assert subscriptions[..i + 1][..i] == subscriptions[..i];
        if subscriptions[i].component == component {
          env := env[subscriptions[i].subscriptionEnv := subscriptions[i].name];
        }
        i := i + 1;
      }
      assert subscriptions[..i] == subscriptions;
    }
  }

  // ----- What the environment says -----

  /** The last subscription for a variable decides it; where all agree, any of them does. */
  lemma {:induction false} OverlaidSets(env: map<string, string>, component: string, subscriptions: seq<MessageSubscription>, s: MessageSubscription)
    requires s in subscriptions && s.component == component
    requires forall t :: t in subscriptions && t.component == component && t.subscriptionEnv == s.subscriptionEnv ==> t.name == s.name
    ensures s.subscriptionEnv in Overlaid(env, component, subscriptions)
    ensures Overlaid(env, component, subscriptions)[s.subscriptionEnv] == s.name
  {
    var front, last := subscriptions[..|subscriptions| - 1], subscriptions[|subscriptions| - 1];
    assert subscriptions == front + [last];
    if last.component != component || last.subscriptionEnv != s.subscriptionEnv {
      OverlaidSets(env, component, front, s);
    }
  }

  lemma {:induction false} OverlaidKeeps(env: map<string, string>, component: string, subscriptions: seq<MessageSubscription>, key: string)
    requires forall s :: s in subscriptions && s.component == component ==> s.subscriptionEnv != key
    ensures key in Overlaid(env, component, subscriptions) <==> key in env
    ensures key in env ==> Overlaid(env, component, subscriptions)[key] == env[key]
  {
    if subscriptions != [] {
      var front, last := subscriptions[..|subscriptions| - 1], subscriptions[|subscriptions| - 1];
      assert subscriptions == front + [last];
      OverlaidKeeps(env, component, front, key);
    }
  }

  /** One subscription for each place of the baseline and nothing else, in any order. */
  ghost predicate ResolvedFor(b: Baseline, installation: string, id: string, digest: Digest, subscriptions: seq<MessageSubscription>)
    requires Qualified(b)
  {
    && (forall s :: s in subscriptions ==> exists p :: IsPlace(b, p) && s == SubscriptionFor(b, installation, id, digest, p))
    && (forall p :: IsPlace(b, p) ==> SubscriptionFor(b, installation, id, digest, p) in subscriptions)
  }

  lemma ResolveMeans(b: Baseline, installation: string, id: string, digest: Digest, places: seq<Place>)
    requires Qualified(b) && Lists(b, places)
    ensures ResolvedFor(b, installation, id, digest, SortBy(SubscriptionsFor(b, installation, id, digest, places), NameOf))
  {
    var unsorted := SubscriptionsFor(b, installation, id, digest, places);
    var sorted := SortBy(unsorted, NameOf);
    SameElements(unsorted, sorted);
    forall s | s in sorted
      ensures exists p :: IsPlace(b, p) && s == SubscriptionFor(b, installation, id, digest, p)
    {
      Listed(b, installation, id, digest, places, s);
    }
    forall p | IsPlace(b, p)
      ensures SubscriptionFor(b, installation, id, digest, p) in sorted
    {
      Listed(b, installation, id, digest, places, SubscriptionFor(b, installation, id, digest, p));
    }
  }

  lemma ValidQualified(b: Baseline)
    requires ValidMessaging(b)
    ensures Qualified(b)
  {
    forall t | t in b.pubsub
      ensures '/' in b.pubsub[t].name
    {
      var name := b.pubsub[t].name;
      assert ValidTopic(b, t, b.pubsub[t]);
      if '/' !in name {
        WholePart(name);
        assert false;
      }
    }
  }

  /** An environment with exactly the flag and these variables. */
  predicate Exactly(env: map<string, string>, variables: set<string>, isolated: bool) {
    env.Keys == {"ENVY_MESSAGE_ISOLATION"} + variables && env["ENVY_MESSAGE_ISOLATION"] == if isolated then "true" else "false"
  }

  /**
   For every valid baseline, a workload sees exactly the isolation flag and the subscription variables
   of its component: empty without isolation, and with it the subscription of that very consumer,
   whatever the order in which topics, consumers and subscriptions were walked.
   */
  lemma EnvironmentExact(
    b: Baseline, component: string, isolated: bool, installation: string, id: string, digest: Digest, subscriptions: seq<MessageSubscription>)
    requires ValidMessaging(b) && Qualified(b) && ResolvedFor(b, installation, id, digest, subscriptions)
    ensures Exactly(EnvironmentOf(b, component, isolated, subscriptions), Variables(b, component), isolated)
    ensures forall p :: p in Places(b) && p.consumer.component == component ==>
              p.consumer.subscriptionEnv in EnvironmentOf(b, component, isolated, subscriptions) &&
              EnvironmentOf(b, component, isolated, subscriptions)[p.consumer.subscriptionEnv] ==
              if isolated then SubscriptionFor(b, installation, id, digest, p).name else ""
  {
    FlagFree(b, component);
    BlankExact(b, component, isolated);
    forall s | s in subscriptions && s.component == component
      ensures s.subscriptionEnv in Variables(b, component)
    {
      OwnVariable(b, installation, id, digest, subscriptions, s);
    }
    if isolated {
      OverlayExact(Blank(b, component, true), component, subscriptions, Variables(b, component));
    }
    forall p | p in Places(b) && p.consumer.component == component
      ensures p.consumer.subscriptionEnv in EnvironmentOf(b, component, isolated, subscriptions) &&
              EnvironmentOf(b, component, isolated, subscriptions)[p.consumer.subscriptionEnv] ==
              if isolated then SubscriptionFor(b, installation, id, digest, p).name else ""
    {
      if isolated {
        OwnName(b, component, installation, id, digest, subscriptions, p);
      } else {
        assert p.consumer.subscriptionEnv in Variables(b, component);
      }
    }
  }

  lemma BlankExact(b: Baseline, component: string, isolated: bool)
    requires ISOLATION_FLAG !in Variables(b, component)
    ensures Exactly(Blank(b, component, isolated), Variables(b, component), isolated)
    ensures forall key :: key in Variables(b, component) ==> Blank(b, component, isolated)[key] == ""
  {
  }

  lemma OwnVariable(
    b: Baseline, installation: string, id: string, digest: Digest, subscriptions: seq<MessageSubscription>, s: MessageSubscription)
    requires Qualified(b) && ResolvedFor(b, installation, id, digest, subscriptions) && s in subscriptions
    ensures s.subscriptionEnv in Variables(b, s.component)
  {
    var p :| IsPlace(b, p) && s == SubscriptionFor(b, installation, id, digest, p);
    assert p in Places(b) && p.consumer.component == s.component;
  }

  lemma OverlayExact(env: map<string, string>, component: string, subscriptions: seq<MessageSubscription>, variables: set<string>)
    requires ISOLATION_FLAG !in variables && Exactly(env, variables, true)
    requires forall s :: s in subscriptions && s.component == component ==> s.subscriptionEnv in variables
    ensures Exactly(Overlaid(env, component, subscriptions), variables, true)
  {
    OverlaidKeys(env, component, subscriptions);
    OverlaidKeeps(env, component, subscriptions, ISOLATION_FLAG);
  }

  lemma {:induction false} OverlaidKeys(env: map<string, string>, component: string, subscriptions: seq<MessageSubscription>)
    requires forall s :: s in subscriptions && s.component == component ==> s.subscriptionEnv in env
    ensures Overlaid(env, component, subscriptions).Keys == env.Keys
  {
    if subscriptions != [] {
      var front, last := subscriptions[..|subscriptions| - 1], subscriptions[|subscriptions| - 1];
      assert subscriptions == front + [last];
      OverlaidKeys(env, component, front);
    }
  }

  lemma FlagFree(b: Baseline, component: string)
    requires ValidMessaging(b)
    ensures ISOLATION_FLAG !in Variables(b, component)
  {
    if p :| p in Places(b) && p.consumer.subscriptionEnv == ISOLATION_FLAG {
      assert ValidConsumer(b, p.id, p.consumer);
      assert HasPrefix(ISOLATION_FLAG, "ENVY_");
      assert false;
    }
  }

  lemma OwnName(
    b: Baseline, component: string, installation: string, id: string, digest: Digest, subscriptions: seq<MessageSubscription>, p: Place)
    requires ValidMessaging(b) && Qualified(b) && ResolvedFor(b, installation, id, digest, subscriptions)
    requires p in Places(b) && p.consumer.component == component
    ensures var env := Overlaid(Blank(b, component, true), component, subscriptions);
            p.consumer.subscriptionEnv in env &&
            env[p.consumer.subscriptionEnv] == SubscriptionFor(b, installation, id, digest, p).name
  {
    var s := SubscriptionFor(b, installation, id, digest, p);
    forall t | t in subscriptions && t.component == component && t.subscriptionEnv == s.subscriptionEnv
      ensures t.name == s.name
    {
      var q :| IsPlace(b, q) && t == SubscriptionFor(b, installation, id, digest, q);
      assert EnvironmentKey(p.consumer) == EnvironmentKey(q.consumer);
      assert p == q;
    }
    OverlaidSets(Blank(b, component, true), component, subscriptions, s);
  }

  // ----- Filters and order of the resolved subscriptions -----

  const ATTRIBUTE := "attributes.envy_composition = "

  lemma {:induction false} PlainScan(s: Scan, text: string)
    requires s.Scan? && !s.escaped
    requires forall i :: 0 <= i < |text| ==> text[i] != '"' && text[i] != '\\' && (s.quoted || (text[i] != '(' && text[i] != ')'))
    ensures ScanFrom(s, text) == s
  {
    if text != [] {
      PlainScan(s, text[..|text| - 1]);
    }
  }

  lemma IsolationBalanced(id: string)
    requires '"' !in id && '\\' !in id
    ensures Balanced(Isolation(id))
  {
    var quoted := Scan(0, true, false);
    PlainScan(START, ATTRIBUTE);
    assert Isolation(id) == ATTRIBUTE + "\"" + id + "\"";
    ScanInTurn(START, ATTRIBUTE, "\"");
    assert "\""[..0] == [];
    assert ScanFrom(START, "\"") == quoted;
    ScanInTurn(START, ATTRIBUTE + "\"", id);
    PlainScan(quoted, id);
    ScanInTurn(START, ATTRIBUTE + "\"" + id, "\"");
    assert ScanFrom(quoted, "\"") == START;
  }

  /** Behind every valid baseline, a subscription delivers what its business filter allows within this composition only. */
  lemma ResolvedEnclosed(b: Baseline, installation: string, id: string, digest: Digest, p: Place)
    requires ValidMessaging(b) && Qualified(b) && p in Places(b) && '"' !in id && '\\' !in id
    ensures var s := SubscriptionFor(b, installation, id, digest, p);
            if p.consumer.filter == "" then s.filter == Isolation(id)
            else |Isolation(id)| + 8 < |s.filter| && ClosedOnlyByLast(s.filter, |Isolation(id)| + 8)
  {
    IsolationBalanced(id);
    if p.consumer.filter != "" {
      assert BusinessFilter(p.consumer.filter);
      EnclosedExactly(Isolation(id), p.consumer.filter);
    }
  }

  lemma SlashFree(id: string)
    requires ValidCatalogID(id)
    ensures '/' !in id
  {
  }

  /** Slash-free parts can be read back from what they were joined to. */
  lemma JoinedApart(prefix: string, a: string, b: string, c: string, d: string)
    requires '/' !in a && '/' !in c && prefix + a + "/" + b == prefix + c + "/" + d
    ensures a == c && b == d
  {
    var x, y := prefix + a + "/" + b, prefix + c + "/" + d;
    assert x[|prefix| + |a|] == '/' && y[|prefix| + |c|] == '/';
    if |a| < |c| {
      assert false;
    } else if |c| < |a| {
      assert false;
    }
    assert a == x[|prefix|..|prefix| + |a|] && c == y[|prefix|..|prefix| + |c|];
    assert b == x[|prefix| + |a| + 1..] && d == y[|prefix| + |c| + 1..];
  }

  /** Forty characters for each consumer of the baseline, different ones for different identities. */
  ghost predicate TellsApart(b: Baseline, installation: string, id: string, digest: Digest) {
    && (forall p :: p in Places(b) ==> |digest(Identity(installation, id, p))| == 40)
    && (forall p, q :: p in Places(b) && q in Places(b) && digest(Identity(installation, id, p)) == digest(Identity(installation, id, q)) ==>
          Identity(installation, id, p) == Identity(installation, id, q))
  }

  /** Distinct consumers have distinct identities. */
  lemma IdentitiesApart(b: Baseline, installation: string, id: string, p: Place, q: Place)
    requires ValidMessaging(b) && p in Places(b) && q in Places(b) && Identity(installation, id, p) == Identity(installation, id, q)
    ensures p == q
  {
    SlashFree(p.topic);
    SlashFree(q.topic);
    JoinedApart(installation + "/" + id + "/", p.topic, p.id, q.topic, q.id);
  }

  /** Distinct consumers of a valid baseline get distinct subscription names. */
  lemma NamesApart(b: Baseline, installation: string, id: string, digest: Digest, p: Place, q: Place)
    requires ValidMessaging(b) && Qualified(b) && TellsApart(b, installation, id, digest) && p in Places(b) && q in Places(b)
    requires SubscriptionFor(b, installation, id, digest, p).name == SubscriptionFor(b, installation, id, digest, q).name
    ensures p == q
  {
    var x, y := digest(Identity(installation, id, p)), digest(Identity(installation, id, q));
    var m, n := SubscriptionFor(b, installation, id, digest, p).name, SubscriptionFor(b, installation, id, digest, q).name;
    assert m[|m| - 40..] == x && n[|n| - 40..] == y;
    IdentitiesApart(b, installation, id, p, q);
  }

  /** The first n of forty characters are ones. */
  function Ones(n: nat): string {
    seq(40, i => if i < n then '1' else '0')
  }

  lemma OnesTell(m: nat, n: nat)
    requires m < 40 && n < 40 && Ones(m) == Ones(n)
    ensures m == n
  {
    assert Ones(n)[m] == Ones(m)[m] == '0';
    assert Ones(m)[n] == Ones(n)[n] == '0';
  }

  function Position(names: seq<string>, s: string): nat {
    if names == [] || names[0] == s then 0 else 1 + Position(names[1..], s)
  }

  lemma {:induction false} PositionFinds(names: seq<string>, s: string)
    requires s in names
    ensures Position(names, s) < |names| && names[Position(names, s)] == s
  {
    if names[0] != s {
      PositionFinds(names[1..], s);
    }
  }

  /** Every valid baseline has such a digest, whatever the installation and the composition are. */
  lemma ToldApart(b: Baseline, installation: string, id: string) returns (digest: Digest)
    requires ValidMessaging(b)
    ensures TellsApart(b, installation, id, digest)
  {
    var names := IdentitiesOf(installation, id, Places(b));
    digest := s => Ones(Position(names, s));
    forall p, q | p in Places(b) && q in Places(b) && digest(Identity(installation, id, p)) == digest(Identity(installation, id, q))
      ensures Identity(installation, id, p) == Identity(installation, id, q)
    {
      var s, t := Identity(installation, id, p), Identity(installation, id, q);
      PositionFinds(names, s);
      PositionFinds(names, t);
      OnesTell(Position(names, s), Position(names, t));
    }
  }

  lemma {:induction false} IdentitiesOf(installation: string, id: string, places: set<Place>) returns (names: seq<string>)
    ensures |names| == |places| && forall p :: p in places ==> Identity(installation, id, p) in names
    decreases places
  {
    names := [];
    if places != {} {
      var p :| p in places;
      names := IdentitiesOf(installation, id, places - {p});
      names := names + [Identity(installation, id, p)];
    }
  }

  /** With such a digest the resolved list is one list, whatever the order in which the maps were walked. */
  lemma ResolvedCanonical(b: Baseline, installation: string, id: string, digest: Digest, a: seq<Place>, c: seq<Place>)
    requires ValidMessaging(b) && Qualified(b) && TellsApart(b, installation, id, digest) && Lists(b, a) && Lists(b, c)
    ensures SortBy(SubscriptionsFor(b, installation, id, digest, a), NameOf) == SortBy(SubscriptionsFor(b, installation, id, digest, c), NameOf)
  {
    var x, y := SubscriptionsFor(b, installation, id, digest, a), SubscriptionsFor(b, installation, id, digest, c);
    NamesIdentify(b, installation, id, digest, a);
    NamesIdentify(b, installation, id, digest, c);
    forall s
      ensures s in x <==> s in y
    {
      Listed(b, installation, id, digest, a, s);
      Listed(b, installation, id, digest, c, s);
    }
    SameListing(x, y);
    SortCanonical(x, y, NameOf);
  }

  lemma Listed(b: Baseline, installation: string, id: string, digest: Digest, places: seq<Place>, s: MessageSubscription)
    requires Qualified(b) && Lists(b, places)
    ensures s in SubscriptionsFor(b, installation, id, digest, places) <==>
            exists p :: IsPlace(b, p) && s == SubscriptionFor(b, installation, id, digest, p)
  {
    var x := SubscriptionsFor(b, installation, id, digest, places);
    if p :| IsPlace(b, p) && s == SubscriptionFor(b, installation, id, digest, p) {
      var i :| 0 <= i < |places| && places[i] == p;
      assert x[i] == s;
    }
    if s in x {
      var i :| 0 <= i < |x| && x[i] == s;
      assert IsPlace(b, places[i]);
    }
  }

  lemma NamesIdentify(b: Baseline, installation: string, id: string, digest: Digest, places: seq<Place>)
    requires ValidMessaging(b) && Qualified(b) && TellsApart(b, installation, id, digest) && Lists(b, places)
    ensures var x := SubscriptionsFor(b, installation, id, digest, places); Distinct(x) && KeysIdentify(x, NameOf)
  {
    var x := SubscriptionsFor(b, installation, id, digest, places);
    forall i, j | 0 <= i < |x| && 0 <= j < |x| && NameOf(x[i]) == NameOf(x[j])
      ensures i == j
    {
      NamesApart(b, installation, id, digest, places[i], places[j]);
    }
  }
}
