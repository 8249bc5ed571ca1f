/**
 The rules of message isolation, told by the texts themselves: which names, variables and filters a
 baseline may declare, and what a subscription and an environment then say.
 */
module MessagingRules {
  import opened Domain
  import opened ExecutionGraph
  import opened Filters
  import opened Slashes
  import opened Messaging

  predicate LetterOrDigit(ch: char) { 'a' <= ch <= 'z' || 'A' <= ch <= 'Z' || '0' <= ch <= '9' }

  // ----- Resource names -----

  predicate ProjectText(s: string) {
    s != "" && LetterOrDigit(s[0]) && forall i :: 0 <= i < |s| ==> LetterOrDigit(s[i]) || s[i] == '.' || s[i] == ':' || s[i] == '-'
  }

  predicate NameText(s: string) {
    && 3 <= |s| <= 255 && LetterOrDigit(s[0]) && !('0' <= s[0] <= '9')
    && forall i :: 0 <= i < |s| ==>
         LetterOrDigit(s[i]) || s[i] == '.' || s[i] == '_' || s[i] == '~' || s[i] == '+' || s[i] == '%' || s[i] == '-'
  }

  function Qualify(project: string, kind: string, name: string): string {
    "projects/" + project + "/" + kind + "/" + name
  }

  /** The text of such a name. */
  predicate IsResource(s: string, project: string, kind: string, name: string) {
    s == Qualify(project, kind, name) && ProjectText(project) && (kind == "topics" || kind == "subscriptions") && NameText(name)
  }

  lemma FourParts(a: string, b: string, c: string, d: string)
    requires '/' !in a && '/' !in b && '/' !in c && '/' !in d
    ensures Parts(a + "/" + b + "/" + c + "/" + d) == [a, b, c, d]
  {
    WholePart(a);
    OnePartMore(a, b);
    OnePartMore(a + "/" + b, c);
    OnePartMore(a + "/" + b + "/" + c, d);
  }

  lemma QualifiedParts(project: string, kind: string, name: string)
    requires '/' !in project && '/' !in kind && '/' !in name
    ensures Parts(Qualify(project, kind, name)) == ["projects", project, kind, name]
  {
    FourParts("projects", project, kind, name);
    assert "projects/" == "projects" + "/";
  }

  /** A resource name is four parts, and nothing else is one. */
  lemma ResourceExactly(s: string) returns (project: string, kind: string, name: string)
    ensures PubSubResource(s) ==> IsResource(s, project, kind, name)
    ensures forall p, k, n :: IsResource(s, p, k, n) ==> PubSubResource(s) && Parts(s) == ["projects", p, k, n]
  {
    project, kind, name := "", "", "";
    if PubSubResource(s) {
      var p := Parts(s);
      project, kind, name := p[1], p[2], p[3];
      PartsThenJoin(s);
      JoinFour(p);
      assert "projects/" == "projects" + "/";
    }
    forall p, k, n | IsResource(s, p, k, n)
      ensures PubSubResource(s) && Parts(s) == ["projects", p, k, n]
    {
      QualifiedParts(p, k, n);
    }
  }

  lemma JoinFour(p: seq<string>)
    requires |p| == 4
    ensures Join(p) == p[0] + "/" + p[1] + "/" + p[2] + "/" + p[3]
  {
    assert Join(p[..1]) == p[0];
    assert p[..2][..1] == p[..1] && Join(p[..2]) == p[0] + "/" + p[1];
    assert p[..3][..2] == p[..2] && Join(p[..3]) == p[0] + "/" + p[1] + "/" + p[2];
  }

  predicate StandsAt(s: string, part: string, i: int) {
    0 <= i <= |s| - |part| && s[i..i + |part|] == part
  }

  lemma {:induction false} ContainsExactly(s: string, part: string)
    ensures Contains(s, part) <==> exists i :: StandsAt(s, part, i)
  {
    if HasPrefix(s, part) {
      assert StandsAt(s, part, 0);
    } else if s != [] {
      ContainsExactly(s[1..], part);
      if i :| StandsAt(s[1..], part, i) {
        assert StandsAt(s, part, i + 1);
      }
      if i :| StandsAt(s, part, i) {
        assert i != 0;
        assert StandsAt(s[1..], part, i - 1);
      }
    }
  }

  /** Where the slashes of a qualified name are. */
  lemma SlashesOf(project: string, kind: string, name: string, i: nat)
    requires '/' !in project && '/' !in kind && '/' !in name && i < |Qualify(project, kind, name)|
    ensures Qualify(project, kind, name)[i] == '/' <==> i == 8 || i == 9 + |project| || i == 10 + |project| + |kind|
  {
    var s := Qualify(project, kind, name);
    if i < 8 {
      assert s[i] == "projects"[i];
    } else if 8 < i < 9 + |project| {
      assert s[i] == project[i - 9];
    } else if 9 + |project| < i < 10 + |project| + |kind| {
      assert s[i] == kind[i - 10 - |project|];
    } else if 10 + |project| + |kind| < i {
      assert s[i] == name[i - 11 - |project| - |kind|];
    }
  }

  /** A word between slashes occurs in a qualified name if it is the kind of the resource, or the project. */
  lemma OccursExactly(project: string, kind: string, name: string, word: string)
    requires '/' !in project && '/' !in kind && '/' !in name && '/' !in word
    ensures Contains(Qualify(project, kind, name), "/" + word + "/") <==> kind == word || project == word
  {
    var s, part := Qualify(project, kind, name), "/" + word + "/";
    ContainsExactly(s, part);
    assert s[8..] == "/" + project + "/" + kind + "/" + name;
    assert s[9 + |project|..] == "/" + kind + "/" + name;
    if project == word {
      assert StandsAt(s, part, 8);
    }
    if kind == word {
      assert StandsAt(s, part, 9 + |project|);
    }
    if i :| StandsAt(s, part, i) {
      OccursAt(project, kind, name, word, i);
    }
  }

  lemma OccursAt(project: string, kind: string, name: string, word: string, i: nat)
    requires '/' !in project && '/' !in kind && '/' !in name && '/' !in word
    requires StandsAt(Qualify(project, kind, name), "/" + word + "/", i)
    ensures kind == word || project == word
  {
    var s, part := Qualify(project, kind, name), "/" + word + "/";
    var e := i + |word| + 1;
    assert s[i] == part[0] == '/' && s[e] == part[|word| + 1] == '/';
    assert forall k :: i < k < e ==> s[k] == s[i..i + |part|][k - i] == word[k - i - 1];
    SlashesOf(project, kind, name, i);
    SlashesOf(project, kind, name, e);
    if i == 8 {
      SlashesOf(project, kind, name, 9 + |project|);
      assert e == 9 + |project|;
      assert s[9..e] == project && s[i..i + |part|][1..|word| + 1] == word;
    } else {
      SlashesOf(project, kind, name, 10 + |project| + |kind|);
      assert e == 10 + |project| + |kind|;
      assert s[10 + |project|..e] == kind && s[i..i + |part|][1..|word| + 1] == word;
    }
  }

  /**
   What passes for a topic is a resource of the kind `topics`, or any resource of a project of that
   name; and so it is with subscriptions.
   */
  lemma KindExactly(s: string, word: string)
    requires '/' !in word
    ensures PubSubResource(s) && Contains(s, "/" + word + "/") <==>
            exists project, kind, name :: IsResource(s, project, kind, name) && (kind == word || project == word)
  {
    var project, kind, name := ResourceExactly(s);
    if PubSubResource(s) {
      OccursExactly(project, kind, name, word);
    }
    if p, k, n :| IsResource(s, p, k, n) && (k == word || p == word) {
      OccursExactly(p, k, n, word);
    }
  }

  /** So a subscription can pass for a topic. */
  lemma SubscriptionAsTopic()
    ensures var s := Qualify("topics", "subscriptions", "abc"); PubSubResource(s) && Contains(s, "/topics/")
  {
    var s := Qualify("topics", "subscriptions", "abc");
    assert IsResource(s, "topics", "subscriptions", "abc");
    KindExactly(s, "topics");
    assert "/" + "topics" + "/" == "/topics/";
  }

  // ----- Declarations -----

  ghost predicate Names(s: string, word: string) {
    exists project, kind, name :: IsResource(s, project, kind, name) && (kind == word || project == word)
  }

  /** An environment variable that a baseline may have set to a subscription. */
  predicate VariableText(s: string) {
    && 1 <= |s| <= 128 && !('0' <= s[0] <= '9') && (forall i :: 0 <= i < |s| ==> LetterOrDigit(s[i]) || s[i] == '_')
    && s != "POD_UID" && !(|s| >= 5 && s[..5] == "ENVY_")
  }

  lemma VariableExactly(s: string)
    ensures Assignable(s) <==> VariableText(s)
  {
    assert |"ENVY_"| == 5;
  }

  /** A filter that reads as text, literals and groups, without line breaks, and leaves the attribute of isolation alone. */
  ghost predicate FilterText(s: string) {
    && (exists t :: Reads(s, t)) && |s| <= 183
    && (forall i :: 0 <= i < |s| ==> s[i] != '\r' && s[i] != '\n' && s[i] != '\0')
    && !exists i :: StandsAt(s, "envy_composition", i)
  }

  lemma FilterExactly(s: string)
    ensures BusinessFilter(s) <==> FilterText(s)
  {
    BalancedExactly(s);
    ContainsExactly(s, "envy_composition");
    assert |"envy_composition"| == 16 && |ZERO_ID| == 32;
    assert |Isolation(ZERO_ID)| == 64;
    assert |MessageFilter(Isolation(ZERO_ID), s)| == if s == "" then 64 else 73 + |s|;
  }

  ghost predicate SoundTopic(b: Baseline, id: string, t: Topic) {
    && ValidCatalogID(id) && Names(t.name, "topics")
    && t.publishers != [] && t.consumers.Keys != {}
    && (forall p :: p in t.publishers ==> p in b.components)
    && (forall i, j :: 0 <= i < j < |t.publishers| ==> t.publishers[i] != t.publishers[j])
  }

  lemma TopicExactly(b: Baseline, id: string, t: Topic)
    ensures ValidTopic(b, id, t) <==> SoundTopic(b, id, t)
  {
    KindExactly(t.name, "topics");
    assert "/" + "topics" + "/" == "/topics/";
    if BoundPublishers(b, t.publishers) {
      forall i, j | 0 <= i < j < |t.publishers|
        ensures t.publishers[i] != t.publishers[j]
      {
        assert t.publishers[j] !in t.publishers[..j] && t.publishers[i] == t.publishers[..j][i];
      }
    }
  }

  ghost predicate SoundConsumer(b: Baseline, id: string, c: Consumer) {
    && ValidCatalogID(id) && Names(c.subscription, "subscriptions")
    && c.component in b.components && VariableText(c.subscriptionEnv) && FilterText(c.filter)
  }

  lemma ConsumerExactly(b: Baseline, id: string, c: Consumer)
    ensures ValidConsumer(b, id, c) <==> SoundConsumer(b, id, c)
  {
    KindExactly(c.subscription, "subscriptions");
    assert "/" + "subscriptions" + "/" == "/subscriptions/";
    VariableExactly(c.subscriptionEnv);
    FilterExactly(c.filter);
  }

  /** Every topic has its own name, every consumer its own subscription and its own variable in its component. */
  ghost predicate AllDistinct(b: Baseline) {
    && (forall s, t :: s in b.pubsub && t in b.pubsub && s != t ==> b.pubsub[s].name != b.pubsub[t].name)
    && (forall p, q :: IsPlace(b, p) && IsPlace(b, q) && p != q ==>
          && p.consumer.subscription != q.consumer.subscription
          && (p.consumer.component != q.consumer.component || p.consumer.subscriptionEnv != q.consumer.subscriptionEnv))
  }

  ghost predicate Sound(b: Baseline) {
    && |b.pubsub| <= 20 && |Places(b)| <= 40 && AllDistinct(b)
    && (forall t :: t in b.pubsub ==> SoundTopic(b, t, b.pubsub[t]))
    && (forall p :: IsPlace(b, p) ==> SoundConsumer(b, p.id, p.consumer))
  }

  lemma LastSlash(a: string, x: string, b: string, y: string)
    requires '/' !in x && '/' !in y && a + "/" + x == b + "/" + y
    ensures a == b && x == y
  {
    var s, t := a + "/" + x, b + "/" + y;
    assert s[|a|] == '/' && t[|b|] == '/';
    if |a| < |b| {
      assert false;
    } else if |b| < |a| {
      assert false;
    }
    assert s[..|a|] == a && t[..|b|] == b && s[|a| + 1..] == x && t[|b| + 1..] == y;
  }

  lemma KeysApart(p: Consumer, q: Consumer)
    requires VariableText(p.subscriptionEnv) && VariableText(q.subscriptionEnv)
    ensures EnvironmentKey(p) == EnvironmentKey(q) <==> p.component == q.component && p.subscriptionEnv == q.subscriptionEnv
  {
    if EnvironmentKey(p) == EnvironmentKey(q) {
      LastSlash(p.component, p.subscriptionEnv, q.component, q.subscriptionEnv);
    }
  }

  lemma TopicsExactly(b: Baseline)
    ensures (forall t :: t in b.pubsub ==> ValidTopic(b, t, b.pubsub[t])) <==>
            (forall t :: t in b.pubsub ==> SoundTopic(b, t, b.pubsub[t]))
  {
    forall t | t in b.pubsub
      ensures ValidTopic(b, t, b.pubsub[t]) <==> SoundTopic(b, t, b.pubsub[t])
    {
      TopicExactly(b, t, b.pubsub[t]);
    }
  }

  lemma ConsumersExactly(b: Baseline)
    ensures (forall p :: p in Places(b) ==> ValidConsumer(b, p.id, p.consumer)) <==>
            (forall p :: IsPlace(b, p) ==> SoundConsumer(b, p.id, p.consumer))
  {
    forall p: Place
      ensures ValidConsumer(b, p.id, p.consumer) <==> SoundConsumer(b, p.id, p.consumer)
    {
      ConsumerExactly(b, p.id, p.consumer);
    }
  }

  lemma DistinctExactly(b: Baseline)
    requires forall p :: IsPlace(b, p) ==> VariableText(p.consumer.subscriptionEnv)
    ensures DistinctTopics(b, b.pubsub.Keys) && DistinctConsumers(Places(b)) <==> AllDistinct(b)
  {
    forall p: Place, q: Place | IsPlace(b, p) && IsPlace(b, q)
      ensures EnvironmentKey(p.consumer) == EnvironmentKey(q.consumer) <==>
              p.consumer.component == q.consumer.component && p.consumer.subscriptionEnv == q.consumer.subscriptionEnv
    {
      KeysApart(p.consumer, q.consumer);
    }
  }

  /** A baseline is accepted exactly if everything that it declares is sound. */
  lemma MessagingExactly(b: Baseline)
    ensures ValidMessaging(b) <==> Sound(b)
  {
    TopicsExactly(b);
    ConsumersExactly(b);
    if forall p :: IsPlace(b, p) ==> SoundConsumer(b, p.id, p.consumer) {
      DistinctExactly(b);
    }
  }

  // ----- What follows -----

  /** The subscription of a consumer, in the project of its topic, for messages of this composition alone. */
  lemma SubscriptionSays(b: Baseline, installation: string, id: string, digest: Digest, p: Place,
                         project: string, kind: string, name: string)
    requires Qualified(b) && IsPlace(b, p) && IsResource(b.pubsub[p.topic].name, project, kind, name)
    ensures var s := SubscriptionFor(b, installation, id, digest, p);
            var own := "attributes.envy_composition = \"" + id + "\"";
            && s.name == "projects/" + project + "/subscriptions/envy-" + digest(installation + "/" + id + "/" + p.topic + "/" + p.id)
            && s.topic == b.pubsub[p.topic].name && s.component == p.consumer.component
            && s.subscriptionEnv == p.consumer.subscriptionEnv && !s.ready
            && s.filter == if p.consumer.filter == "" then own else "(" + own + ") AND (" + p.consumer.filter + ")"
  {
    var x, y, z := ResourceExactly(b.pubsub[p.topic].name);
  }

  /** The variables of a component are those of its consumers. */
  lemma VariablesExactly(b: Baseline, component: string, variable: string)
    ensures variable in Variables(b, component) <==>
            exists p :: IsPlace(b, p) && p.consumer.component == component && p.consumer.subscriptionEnv == variable
  {
    if p :| IsPlace(b, p) && p.consumer.component == component && p.consumer.subscriptionEnv == variable {
      assert p in Places(b);
    }
  }
}
