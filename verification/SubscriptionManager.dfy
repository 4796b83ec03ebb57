/** The subscription manager and the client's use of it, in imperative form. */
module SubscriptionManagers {
  import opened Orders
  import opened MqttUtils
  import opened MqttTopics
  import opened Subscriptions

  datatype AddResult = TopicTooLong | Added(mqttTopic: Text, requiresSubscribe: bool)

  datatype RemoveResult = Removed(mqttTopic: Text, requiresUnsubscribe: bool)

  // ---------- Walking the trie ----------

  ghost predicate Distinct(patterns: seq<Pattern>) {
    forall i, j :: 0 <= i < j < |patterns| ==> patterns[i] != patterns[j]
  }

  lemma {:induction false} DistinctJoin(a: seq<Pattern>, b: seq<Pattern>)
    requires Distinct(a) && Distinct(b) && forall p :: p in a ==> p !in b
    ensures Distinct(a + b)
  {
    forall i, j | 0 <= i < j < |a + b|
      ensures (a + b)[i] != (a + b)[j]
    {
      assert i < |a| ==> (a + b)[i] in a;
      assert j >= |a| ==> (a + b)[j] in b;
    }
  }

  method WalkLeaves(t: Key, s: Key, leaves: Leaves) returns (mqttTopics: seq<Text>, ghost patterns: seq<Pattern>)
    ensures |mqttTopics| == |patterns| && Distinct(patterns)
    ensures forall p :: p in patterns <==>
              p.topic == t && p.serialNumber == s && p.manufacturer in leaves && leaves[p.manufacturer].ids != []
    ensures forall i :: 0 <= i < |patterns| ==>
      patterns[i] in patterns && mqttTopics[i] == leaves[patterns[i].manufacturer].mqttTopic
  {
    mqttTopics, patterns := [], [];
    var left := leaves.Keys;
    while left != {}
      invariant left <= leaves.Keys && |mqttTopics| == |patterns| && Distinct(patterns)
      invariant forall p :: p in patterns <==>
                  p.topic == t && p.serialNumber == s && p.manufacturer in leaves && p.manufacturer !in left
                    && leaves[p.manufacturer].ids != []
      invariant forall i :: 0 <= i < |patterns| ==>
        patterns[i] in patterns && mqttTopics[i] == leaves[patterns[i].manufacturer].mqttTopic
      decreases left
    {
      var m :| m in left;
      if leaves[m].ids != [] {
        mqttTopics := mqttTopics + [leaves[m].mqttTopic];
        patterns := patterns + [Pattern(t, s, m)];
      }
      left := left - {m};
    }
  }

  method WalkTopic(t: Key, byTopic: map<Key, Leaves>) returns (mqttTopics: seq<Text>, ghost patterns: seq<Pattern>)
    ensures |mqttTopics| == |patterns| && Distinct(patterns)
    ensures forall p :: p in patterns <==>
              p.topic == t && p.serialNumber in byTopic && p.manufacturer in byTopic[p.serialNumber]
              && byTopic[p.serialNumber][p.manufacturer].ids != []
    ensures forall i :: 0 <= i < |patterns| ==>
              patterns[i] in patterns
                && mqttTopics[i] == byTopic[patterns[i].serialNumber][patterns[i].manufacturer].mqttTopic
  {
    mqttTopics, patterns := [], [];
    var left := byTopic.Keys;
    while left != {}
      invariant left <= byTopic.Keys && |mqttTopics| == |patterns| && Distinct(patterns)
      invariant forall p :: p in patterns <==>
                  p.topic == t && p.serialNumber in byTopic && p.serialNumber !in left
                    && p.manufacturer in byTopic[p.serialNumber]
                  && byTopic[p.serialNumber][p.manufacturer].ids != []
      invariant forall i :: 0 <= i < |patterns| ==>
                  patterns[i] in patterns
                    && mqttTopics[i] == byTopic[patterns[i].serialNumber][patterns[i].manufacturer].mqttTopic
      decreases left
    {
      var s :| s in left;
      var more, morePatterns := WalkLeaves(t, s, byTopic[s]);
      DistinctJoin(patterns, morePatterns);
      mqttTopics := mqttTopics + more;
      patterns := patterns + morePatterns;
      left := left - {s};
    }
  }

  method Walk(trie: Trie) returns (mqttTopics: seq<Text>, ghost patterns: seq<Pattern>)
    ensures |mqttTopics| == |patterns| && Distinct(patterns)
    ensures forall p :: p in patterns <==> LeafIds(trie, p) != []
    ensures forall i :: 0 <= i < |patterns| ==>
              patterns[i] in patterns && HasLeaf(trie, patterns[i])
                && mqttTopics[i] == LeafOf(trie, patterns[i]).mqttTopic
  {
    mqttTopics, patterns := [], [];
    var left := trie.Keys;
    while left != {}
      invariant left <= trie.Keys && |mqttTopics| == |patterns| && Distinct(patterns)
      invariant forall p :: p in patterns <==> p.topic !in left && LeafIds(trie, p) != []
      invariant forall i :: 0 <= i < |patterns| ==>
                  patterns[i] in patterns && HasLeaf(trie, patterns[i])
                    && mqttTopics[i] == LeafOf(trie, patterns[i]).mqttTopic
      decreases left
    {
      var t :| t in left;
      var more, morePatterns := WalkTopic(t, trie[t]);
      DistinctJoin(patterns, morePatterns);
      mqttTopics := mqttTopics + more;
      patterns := patterns + morePatterns;
      left := left - {t};
    }
  }

  // ---------- Inbound topics ----------

  /** The parts of an inbound topic; those without a place in the format come from the object itself. */
  function PathOf(format: seq<Text>, mqttTopic: Text, manufacturer: Key, serialNumber: Key): Path {
    var m, s := PartIn(format, Manufacturer, mqttTopic), PartIn(format, SerialNumber, mqttTopic);
    Path(PartIn(format, Topic, mqttTopic), if s.None? then serialNumber else s, if m.None? then manufacturer else m)
  }

  /**
   What is published for a vehicle is looked up under the ids of that vehicle: those in the topic as far as the format
   has a place for them, and those in the object otherwise.
   */
  lemma {:induction false} InboundPath(format: seq<Text>, v: Values, manufacturer: Key, serialNumber: Key)
    requires |format| > 0 && SlashFreeLevels(format) && SlashFreeValues(v) && Placeholder(Topic) in format
    ensures var path := PathOf(format, TopicOf(format, v), manufacturer, serialNumber);
      && path.topic == Some(v.topic)
      && path.manufacturer == (if Placeholder(Manufacturer) in format then Some(v.manufacturer) else manufacturer)
      && path.serialNumber == (if Placeholder(SerialNumber) in format then Some(v.serialNumber) else serialNumber)
  {
    RoundTrip(format, v, Topic);
    RoundTrip(format, v, Manufacturer);
    RoundTrip(format, v, SerialNumber);
  }

  // ---------- The manager ----------

  class SubscriptionManager {
    const topics: MqttTopicFormat
    var subscriptions: Trie
    var subscriptionIds: map<Id, Pattern>     // ids ever added, with the place of their handlers
    ghost var live: seq<Subscription>

    ghost predicate Valid()
      reads this, topics.levels
    {
      && topics.Valid()
      && DistinctIds(live) && Indexes(subscriptions, live)
      && (forall s :: s in live ==> s.id in subscriptionIds && subscriptionIds[s.id] == s.pattern)
      && (forall p :: HasLeaf(subscriptions, p) ==> LeafOf(subscriptions, p).mqttTopic == MqttTopic(p))
    }

    ghost function MqttTopic(p: Pattern): Text
      requires |topics.format| > 0
    {
      TopicFor(topics.format, topics.interfaceName, topics.majorVersion, p)
    }

    constructor (topics: MqttTopicFormat)
      requires topics.Valid()
      ensures Valid() && this.topics == topics && live == []
    {
      this.topics := topics;
      subscriptions, subscriptionIds, live := map[], map[], [];
    }

    method Clear()
      requires Valid()
      modifies this
      ensures Valid() && live == []
    {
      subscriptions, subscriptionIds, live := map[], map[], [];
    }

    /** Adds a subscription under an id that was never used before. */
    method Add(p: Pattern, id: Id) returns (r: AddResult)
      requires Valid() && id !in subscriptionIds
      modifies this, topics.levels
      ensures Valid()
      ensures r.TopicTooLong? <==> ByteCount(MqttTopic(p)) > MAX_MQTT_TOPIC_UTF8_COUNT
      ensures r.TopicTooLong? ==> live == old(live)
      ensures r.Added? ==> live == old(live) + [Subscription(id, p)] && r.mqttTopic == MqttTopic(p)
      ensures r.Added? ==> (r.requiresSubscribe <==> forall s :: s in old(live) ==> s.pattern != p)
      ensures subscriptionIds.Keys == old(subscriptionIds.Keys) + (if r.Added? then {id} else {})
    {
      var m, s, t := LevelFor(p.manufacturer), LevelFor(p.serialNumber), LevelFor(p.topic);
      var length := topics.GetMqttTopicUtf8Length(m, s, t);
      var throws := AssertMqttTopicUtf8Count(length);
      if throws {
        return TopicTooLong;
      }
      var ids := LeafIds(subscriptions, p);
      assert ids == IdsFor(live, p);
      var mqttTopic := if HasLeaf(subscriptions, p) then LeafOf(subscriptions, p).mqttTopic else [];
      if ids == [] {
        mqttTopic := topics.ConstructMqttTopic(m, s, t);
      }
      NoneWith(live, p);
      Enter(p, id, Leaf(ids + [id], mqttTopic));
      return Added(mqttTopic, ids == []);
    }

    lemma {:induction false} NoneWith(live: seq<Subscription>, p: Pattern)
      ensures IdsFor(live, p) == [] <==> forall s :: s in live ==> s.pattern != p
    {
      forall s | s in live && s.pattern == p
        ensures s.id in IdsFor(live, p)
      {
        InIdsFor(live, p, s.id);
        assert s == Subscription(s.id, p);
      }
      if IdsFor(live, p) != [] {
        InIdsFor(live, p, IdsFor(live, p)[0]);
      }
    }

    method Enter(p: Pattern, id: Id, leaf: Leaf)
      requires Valid() && id !in subscriptionIds
      requires leaf == Leaf(LeafIds(subscriptions, p) + [id], MqttTopic(p))
      modifies this
      ensures Valid() && live == old(live) + [Subscription(id, p)]
      ensures subscriptionIds == old(subscriptionIds)[id := p]
    {
      forall q: Pattern
        ensures LeafIds(PutLeaf(subscriptions, p, leaf), q) == IdsFor(live + [Subscription(id, p)], q)
        ensures HasLeaf(PutLeaf(subscriptions, p, leaf), q)
                ==> LeafOf(PutLeaf(subscriptions, p, leaf), q).mqttTopic == MqttTopic(q)
      {
        PutLeafAt(subscriptions, p, leaf, q);
        IdsForAdded(live, Subscription(id, p), q);
        assert LeafIds(subscriptions, q) == IdsFor(live, q);
      }
      subscriptions := PutLeaf(subscriptions, p, leaf);
      subscriptionIds := subscriptionIds[id := p];
      live := live + [Subscription(id, p)];
    }

    /** Removes a subscription; an unknown or already removed id is left alone. */
    method Remove(id: Id) returns (r: Option<RemoveResult>)
      requires Valid()
      modifies this
      ensures Valid() && subscriptionIds == old(subscriptionIds)
      ensures r.None? <==> forall s :: s in old(live) ==> s.id != id
      ensures live == Without(old(live), id)
      ensures r.Some? ==> exists s :: s in old(live) && s.id == id && r.value.mqttTopic == MqttTopic(s.pattern)
                                      && (r.value.requiresUnsubscribe <==> forall u :: u in live ==>
                                            u.pattern != s.pattern)
    {
      if id !in subscriptionIds || id !in LeafIds(subscriptions, subscriptionIds[id]) {
        NotLive(id);
        WithoutNone(live, id);
        return None;
      }
      var p := subscriptionIds[id];
      var leaf := LeafOf(subscriptions, p);
      assert leaf.ids == LeafIds(subscriptions, p) == IdsFor(live, p);
      InIdsFor(live, p, id);
      assert Subscription(id, p) in live;
      Leave(p, id);
      var left := LeafOf(subscriptions, p).ids;
      NoneWith(live, p);
      assert LeafIds(subscriptions, p) == IdsFor(live, p);
      return Some(Removed(leaf.mqttTopic, left == []));
    }

    lemma {:induction false} NotLive(id: Id)
      requires Valid() && (id !in subscriptionIds || id !in LeafIds(subscriptions, subscriptionIds[id]))
      ensures forall s :: s in live ==> s.id != id
    {
      forall s | s in live && s.id == id
        ensures id in IdsFor(live, s.pattern)
      {
        InIdsFor(live, s.pattern, id);
        assert s == Subscription(id, s.pattern);
      }
      assert id in subscriptionIds ==> LeafIds(subscriptions, subscriptionIds[id]) == IdsFor(live, subscriptionIds[id]);
    }

    method Leave(p: Pattern, id: Id)
      requires Valid() && Subscription(id, p) in live && HasLeaf(subscriptions, p)
      modifies this
      ensures Valid() && live == Without(old(live), id) && subscriptionIds == old(subscriptionIds)
      ensures HasLeaf(subscriptions, p)
    {
      var leaf := LeafOf(subscriptions, p);
      leaf := leaf.(ids := Dropped(leaf.ids, id));
      WithoutContent(live, id);
      forall q: Pattern
        ensures LeafIds(PutLeaf(subscriptions, p, leaf), q) == IdsFor(Without(live, id), q)
        ensures HasLeaf(PutLeaf(subscriptions, p, leaf), q)
                ==> LeafOf(PutLeaf(subscriptions, p, leaf), q).mqttTopic == MqttTopic(q)
      {
        PutLeafAt(subscriptions, p, leaf, q);
        IdsForWithout(live, id, q);
        assert LeafIds(subscriptions, q) == IdsFor(live, q);
        if q != p {
          InIdsFor(live, q, id);
          if Subscription(id, q) in live {
            SamePattern(live, Subscription(id, p), Subscription(id, q));
          }
          DroppedNone(IdsFor(live, q), id);
        }
      }
      PutLeafAt(subscriptions, p, leaf, p);
      subscriptions := PutLeaf(subscriptions, p, leaf);
      live := Without(live, id);
    }

    /** The topics of all patterns with at least one live subscription, one for each. */
    method GetAll() returns (mqttTopics: seq<Text>, ghost patterns: seq<Pattern>)
      requires Valid()
      ensures forall t :: t in mqttTopics <==> exists s :: s in live && MqttTopic(s.pattern) == t
      ensures |mqttTopics| == |patterns| && Distinct(patterns)
      ensures forall p :: p in patterns <==> exists s :: s in live && s.pattern == p
    {
      mqttTopics, patterns := Walk(subscriptions);
      forall p: Pattern
        ensures LeafIds(subscriptions, p) != [] <==> exists s :: s in live && s.pattern == p
      {
        assert LeafIds(subscriptions, p) == IdsFor(live, p);
        NoneWith(live, p);
      }
      TopicsOfLive(mqttTopics, patterns);
    }

    lemma {:induction false} TopicsOfLive(mqttTopics: seq<Text>, patterns: seq<Pattern>)
      requires Valid() && |mqttTopics| == |patterns|
      requires forall i :: 0 <= i < |patterns| ==> mqttTopics[i] == MqttTopic(patterns[i])
      requires forall p :: p in patterns <==> exists s :: s in live && s.pattern == p
      ensures forall t :: t in mqttTopics <==> exists s :: s in live && MqttTopic(s.pattern) == t
    {
      forall t | t in mqttTopics
        ensures exists s :: s in live && MqttTopic(s.pattern) == t
      {
        var i :| 0 <= i < |mqttTopics| && mqttTopics[i] == t;
        assert patterns[i] in patterns;
        var s :| s in live && s.pattern == patterns[i];
      }
      forall s | s in live
        ensures MqttTopic(s.pattern) in mqttTopics
      {
        assert s.pattern in patterns;
        var i :| 0 <= i < |patterns| && patterns[i] == s.pattern;
        assert mqttTopics[i] == MqttTopic(s.pattern);
      }
    }

    /** The subscriptions for an inbound topic. */
    method FindHandlers(mqttTopic: Text, manufacturer: Key, serialNumber: Key) returns (ids: seq<Id>, topic: Key)
      requires Valid()
      ensures topic == PartIn(topics.format, Topic, mqttTopic)
      ensures var path := PathOf(topics.format, mqttTopic, manufacturer, serialNumber);
        forall id :: multiset(ids)[id] == if IsMatch(live, id, path) then Ways(path) else 0
    {
      var m, s;
      m, s, topic := topics.DeconstructMqttTopic(mqttTopic);
      var path := Path(topic, if s.None? then serialNumber else s, if m.None? then manufacturer else m);
      ids := Find(subscriptions, path);
      forall id
        ensures multiset(ids)[id] == if IsMatch(live, id, path) then Ways(path) else 0
      {
        FindsExactlyOnce(subscriptions, live, path, id);
      }
    }
  }
}
