/** The client's subscriptions and the filters the broker holds for it, over connections that come and go. */
module BrokerFilters {
  import opened Orders
  import opened MqttUtils
  import opened MqttTopics
  import opened Subscriptions
  import opened SubscriptionManagers

  /** What the topics of a client are constructed from. */
  datatype Naming = Naming(format: seq<Text>, interfaceName: Text, majorVersion: Text)

  predicate ValidNaming(n: Naming) {
    SlashFreeParts(n.format, n.interfaceName, n.majorVersion)
  }

  function TopicBy(n: Naming, p: Pattern): Text
    requires ValidNaming(n)
  {
    TopicFor(n.format, n.interfaceName, n.majorVersion, p)
  }

  function ActiveTopics(n: Naming, live: seq<Subscription>): set<Text>
    requires ValidNaming(n)
  {
    set s | s in live :: TopicBy(n, s.pattern)
  }

  /** The live subscriptions, and the filters of the present session, which is a clean one after every connect. */
  datatype Net = Net(live: seq<Subscription>, online: bool, filters: set<Text>)

  datatype Event = Subscribe(id: Id, pattern: Pattern) | Unsubscribe(id: Id) | Connect | Disconnect | Stop

  predicate Enabled(n: Naming, x: Net, e: Event)
    requires ValidNaming(n)
  {
    match e
    case Subscribe(id, p) => ValidPattern(p) && ByteCount(TopicBy(n, p)) <= MAX_MQTT_TOPIC_UTF8_COUNT
      && forall s :: s in x.live ==> s.id != id
    case Unsubscribe(id) => exists s :: s in x.live && s.id == id
    case _ => true
  }


  function PatternOf(live: seq<Subscription>, id: Id): Option<Pattern> {
    if live == [] then None
    else if live[|live| - 1].id == id then Some(live[|live| - 1].pattern)
    else PatternOf(live[..|live| - 1], id)
  }

  predicate IsUsed(live: seq<Subscription>, p: Pattern) {
    exists s :: s in live && s.pattern == p
  }

  function Step(n: Naming, x: Net, e: Event): Net
    requires ValidNaming(n) && Enabled(n, x, e)
  {
    match e
    case Subscribe(id, p) =>
      var x' := x.(live := x.live + [Subscription(id, p)]);
      if IsUsed(x.live, p) || !x.online then x' else x'.(filters := x.filters + {TopicBy(n, p)})
    case Unsubscribe(id) =>
      var x' := x.(live := Without(x.live, id));
      var p := PatternOf(x.live, id);
      if p.None? || IsUsed(x'.live, p.value) || !x.online then x' else x'.(filters := x.filters - {TopicBy(n, p.value)})
    case Connect => if x.online then x else x.(online := true, filters := ActiveTopics(n, x.live))
    case Disconnect => x.(online := false, filters := {})
    case Stop => Net([], false, {})
  }

  const OFFLINE := Net([], false, {})

  /** While online, the filters are exactly the topics of the live subscriptions. */
  ghost predicate Agrees(n: Naming, x: Net)
    requires ValidNaming(n)
  {
    x.filters == if x.online then ActiveTopics(n, x.live) else {}
  }

  ghost predicate ValidNet(x: Net) {
    DistinctIds(x.live) && forall s :: s in x.live ==> ValidPattern(s.pattern)
  }

  /** Different patterns have different topics. */
  ghost predicate Separates(n: Naming)
    requires ValidNaming(n)
  {
    forall p, q :: ValidPattern(p) && ValidPattern(q) && p != q ==> TopicBy(n, p) != TopicBy(n, q)
  }

  lemma {:induction false} PatternOfIs(live: seq<Subscription>, s: Subscription)
    requires DistinctIds(live) && s in live
    ensures PatternOf(live, s.id) == Some(s.pattern)
  {
    var before, last := live[..|live| - 1], live[|live| - 1];
    assert live == before + [last];
    if last.id == s.id {
      SamePattern(live, s, last);
    } else {
      PatternOfIs(before, s);
    }
  }

  lemma {:induction false} SubscribeKeeps(n: Naming, x: Net, id: Id, p: Pattern)
    requires ValidNaming(n) && ValidNet(x) && Agrees(n, x) && Enabled(n, x, Subscribe(id, p))
    ensures ValidNet(Step(n, x, Subscribe(id, p))) && Agrees(n, Step(n, x, Subscribe(id, p)))
  {
    var live := x.live + [Subscription(id, p)];
    assert ActiveTopics(n, live) == ActiveTopics(n, x.live) + {TopicBy(n, p)} by {
      assert Subscription(id, p) in live;
      forall s | s in x.live
        ensures s in live
      {
      }
    }
    if IsUsed(x.live, p) {
      var s :| s in x.live && s.pattern == p;
      assert TopicBy(n, p) in ActiveTopics(n, x.live);
    }
  }

  lemma {:induction false} UnsubscribeKeeps(n: Naming, x: Net, id: Id)
    requires ValidNaming(n) && Separates(n) && ValidNet(x) && Agrees(n, x) && Enabled(n, x, Unsubscribe(id))
    ensures ValidNet(Step(n, x, Unsubscribe(id))) && Agrees(n, Step(n, x, Unsubscribe(id)))
  {
    var s :| s in x.live && s.id == id;
    PatternOfIs(x.live, s);
    WithoutContent(x.live, id);
    var live := Without(x.live, id);
    var topic := TopicBy(n, s.pattern);
    forall t
      ensures t in ActiveTopics(n, live) <==> t in ActiveTopics(n, x.live) && (t == topic ==> IsUsed(live, s.pattern))
    {
      if t in ActiveTopics(n, x.live) && t != topic {
        var u :| u in x.live && TopicBy(n, u.pattern) == t;
        SamePatternId(x.live, u, s);
        assert u in live;
      }
    }
  }

  lemma {:induction false} SamePatternId(live: seq<Subscription>, u: Subscription, s: Subscription)
    requires DistinctIds(live) && u in live && s in live && u.pattern != s.pattern
    ensures u.id != s.id
  {
    if u.id == s.id {
      SamePattern(live, u, s);
    }
  }

  // ---------- Runs ----------

  ghost function After(n: Naming, events: seq<Event>): Option<Net>
    requires ValidNaming(n)
  {
    if events == [] then Some(OFFLINE)
    else
      var before, e := After(n, events[..|events| - 1]), events[|events| - 1];
      if before.Some? && Enabled(n, before.value, e) then Some(Step(n, before.value, e)) else None
  }

  lemma {:induction false} RunsAgree(n: Naming, events: seq<Event>)
    requires ValidNaming(n) && Separates(n) && After(n, events).Some?
    ensures ValidNet(After(n, events).value) && Agrees(n, After(n, events).value)
  {
    if events == [] {
    } else {
      RunsAgree(n, events[..|events| - 1]);
      var x := After(n, events[..|events| - 1]).value;
      match events[|events| - 1]
      case Subscribe(id, p) => SubscribeKeeps(n, x, id, p);
      case Unsubscribe(id) => UnsubscribeKeeps(n, x, id);
      case _ =>
    }
  }

  /** A format with a place for every part separates the patterns. */
  lemma {:induction false} NamingSeparates(n: Naming)
    requires ValidNaming(n) && NamesVehicle(n.format)
    ensures Separates(n)
  {
    forall p, q | ValidPattern(p) && ValidPattern(q) && p != q
      ensures TopicBy(n, p) != TopicBy(n, q)
    {
      TopicsInjective(n.format, n.interfaceName, n.majorVersion, p, q);
    }
  }

  /** Two patterns with one topic: the end of one subscription takes the filter away from the other. */
  lemma {:induction false} SharedTopicDisagrees(n: Naming, p: Pattern, q: Pattern)
    requires ValidNaming(n) && ValidPattern(p) && ValidPattern(q) && p != q && TopicBy(n, p) == TopicBy(n, q)
    requires ByteCount(TopicBy(n, p)) <= MAX_MQTT_TOPIC_UTF8_COUNT
    ensures var events := [Connect, Subscribe("a", p), Subscribe("b", q), Unsubscribe("a")];
      After(n, events).Some? && !Agrees(n, After(n, events).value)
  {
    var events := [Connect, Subscribe("a", p), Subscribe("b", q)];
    var a, b := Subscription("a", p), Subscription("b", q);
    var filters := {TopicBy(n, p)};
    BothSubscribed(n, p, q);
    WithoutFirst(a, b);
    assert a in [a, b] && filters - filters == {};
    AfterThen(n, events, Net([a, b], true, filters), Unsubscribe("a"), Net([b], true, {}));
    assert events + [Unsubscribe("a")] == [Connect, Subscribe("a", p), Subscribe("b", q), Unsubscribe("a")];
    assert b in [b];
  }

  /** Two subscriptions, held by one filter. */
  lemma {:induction false} BothSubscribed(n: Naming, p: Pattern, q: Pattern)
    requires ValidNaming(n) && ValidPattern(p) && ValidPattern(q) && p != q && TopicBy(n, p) == TopicBy(n, q)
    requires ByteCount(TopicBy(n, p)) <= MAX_MQTT_TOPIC_UTF8_COUNT
    ensures After(n, [Connect, Subscribe("a", p), Subscribe("b", q)])
         == Some(Net([Subscription("a", p), Subscription("b", q)], true, {TopicBy(n, p)}))
  {
    var e1: seq<Event> := [Connect];
    var e2 := e1 + [Subscribe("a", p)];
    var a, b := Subscription("a", p), Subscription("b", q);
    var filters := {TopicBy(n, p)};
    assert [] + [Connect] == e1 && ActiveTopics(n, []) == {};
    AfterThen(n, [], OFFLINE, Connect, Net([], true, {}));
    assert [] + [a] == [a];
    AfterThen(n, e1, Net([], true, {}), Subscribe("a", p), Net([a], true, filters));
    assert [a] + [b] == [a, b];
    AfterThen(n, e2, Net([a], true, filters), Subscribe("b", q), Net([a, b], true, filters));
    assert e2 + [Subscribe("b", q)] == [Connect, Subscribe("a", p), Subscribe("b", q)];
  }

  lemma {:induction false} AfterThen(n: Naming, events: seq<Event>, x: Net, e: Event, y: Net)
    requires ValidNaming(n) && After(n, events) == Some(x) && Enabled(n, x, e) && Step(n, x, e) == y
    ensures After(n, events + [e]) == Some(y)
  {
    assert (events + [e])[..|events|] == events;
  }

  lemma {:induction false} WithoutFirst(a: Subscription, b: Subscription)
    requires a.id != b.id
    ensures Without([a, b], a.id) == [b] && PatternOf([a, b], a.id) == Some(a.pattern)
  {
    assert [a, b][..1] == [a] && [a][..0] == [];
    assert PatternOf([a], a.id) == Some(a.pattern);
    assert Without([a], a.id) == [];
    assert Without([a, b], a.id) == Without([a], a.id) + [b];
    assert PatternOf([a, b], a.id) == PatternOf([a, b][..1], a.id);
  }

  /** Without a place for the manufacturer or the serial number, patterns that only differ there share their topic. */
  lemma {:induction false} MissingPartShares(n: Naming, p: Pattern, q: Pattern)
    requires ValidNaming(n)
    requires p.topic == q.topic
    requires p.serialNumber == q.serialNumber || Placeholder(SerialNumber) !in n.format
    requires p.manufacturer == q.manufacturer || Placeholder(Manufacturer) !in n.format
    ensures TopicBy(n, p) == TopicBy(n, q)
  {
    var v, w := ValuesFor(n.interfaceName, n.majorVersion, p), ValuesFor(n.interfaceName, n.majorVersion, q);
    forall i | 0 <= i < |n.format|
      ensures FilledLevel(n.format[i], v) == FilledLevel(n.format[i], w)
    {
      assert n.format[i] in n.format;
    }
    assert Filled(n.format, v) == Filled(n.format, w);
  }

  /**
   The filters agree with the subscriptions in every run if and only if the format has a place for manufacturer and
   serial number (given that topics of one-letter parts are not too long for MQTT).
   */
  lemma {:induction false} FiltersAgreeIff(n: Naming)
    requires ValidNaming(n)
    requires var p := Pattern(Some(TextOf("t")), Some(TextOf("a")), Some(TextOf("a")));
      ByteCount(TopicBy(n, p)) <= MAX_MQTT_TOPIC_UTF8_COUNT
    ensures NamesVehicle(n.format) <==> forall events :: After(n, events).Some? ==> Agrees(n, After(n, events).value)
  {
    assert Placeholder(Topic) in n.format;
    if NamesVehicle(n.format) {
      NamingSeparates(n);
      forall events | After(n, events).Some?
        ensures Agrees(n, After(n, events).value)
      {
        RunsAgree(n, events);
      }
    } else {
      var t, a, b := TextOf("t"), TextOf("a"), TextOf("b");
      assert t[0] == UnitOf('t') && a[0] == UnitOf('a') && b[0] == UnitOf('b');
      assert ValidLevel(t) && ValidLevel(a) && ValidLevel(b) && a != b;
      var p := Pattern(Some(t), Some(a), Some(a));
      var q := if Placeholder(Manufacturer) in n.format then p.(serialNumber := Some(b))
        else p.(manufacturer := Some(b));
      MissingPartShares(n, p, q);
      SharedTopicDisagrees(n, p, q);
      var events := [Connect, Subscribe("a", p), Subscribe("b", q), Unsubscribe("a")];
      assert After(n, events).Some?;
    }
  }

  // ---------- The client ----------

  class Client {
    const manager: SubscriptionManager
    var isConnected: bool
    var filters: set<Text>           // held by the broker for the present session

    ghost function Name(): Naming {
      Naming(manager.topics.format, manager.topics.interfaceName, manager.topics.majorVersion)
    }

    ghost predicate Valid()
      reads this, manager, manager.topics.levels
    {
      manager.Valid() && ValidNaming(Name()) && (!isConnected ==> filters == {})
    }

    ghost function Value(): Net
      reads this, manager
    {
      Net(manager.live, isConnected, filters)
    }

    constructor (manager: SubscriptionManager)
      requires manager.Valid() && manager.live == [] && SlashFree(manager.topics.interfaceName)
        && SlashFree(manager.topics.majorVersion)
      ensures Valid() && this.manager == manager && Value() == OFFLINE
    {
      this.manager, isConnected, filters := manager, false, {};
    }

    /** Subscriptions while offline are made up for on the next connect. */
    method SubscribeTopic(p: Pattern, id: Id) returns (r: AddResult)
      requires Valid() && ValidPattern(p) && id !in manager.subscriptionIds
      modifies this, manager, manager.topics.levels
      ensures Valid()
      ensures r.TopicTooLong? ==> Value() == old(Value())
      ensures r.Added? ==>
        Enabled(Name(), old(Value()), Subscribe(id, p)) && Value() == Step(Name(), old(Value()), Subscribe(id, p))
    {
      assert forall s :: s in manager.live ==> s.id != id;
      r := manager.Add(p, id);
      if r.Added? && r.requiresSubscribe && isConnected {
        filters := filters + {r.mqttTopic};
      }
    }

    method Unsubscribe(id: Id) returns (found: bool)
      requires Valid()
      modifies this, manager
      ensures Valid()
      ensures found <==> Enabled(Name(), old(Value()), Event.Unsubscribe(id))
      ensures Value() == if found then Step(Name(), old(Value()), Event.Unsubscribe(id)) else old(Value())
    {
      ghost var live := manager.live;
      var r := manager.Remove(id);
      found := r.Some?;
      if r.None? {
        WithoutNone(live, id);
      } else {
        ghost var s :| s in live && s.id == id && r.value.mqttTopic == manager.MqttTopic(s.pattern)
                       && (r.value.requiresUnsubscribe <==> forall u :: u in manager.live ==> u.pattern != s.pattern);
        PatternOfIs(live, s);
        if r.value.requiresUnsubscribe && isConnected {
          filters := filters - {r.value.mqttTopic};
        }
      }
    }

    /** The listener that runs on every successful connect, with a clean session. */
    method OnConnect()
      requires Valid() && !isConnected
      modifies this
      ensures Valid() && Value() == Step(Name(), old(Value()), Connect)
    {
      isConnected := true;
      var resubscribes;
      ghost var patterns;
      resubscribes, patterns := manager.GetAll();
      filters := filters + (set t | t in resubscribes);
      assert (set t | t in resubscribes) == ActiveTopics(Name(), manager.live);
    }

    method OnDisconnect()
      requires Valid()
      modifies this
      ensures Valid() && Value() == Step(Name(), old(Value()), Disconnect)
    {
      isConnected := false;
      filters := {};
    }

    method StopClient()
      requires Valid()
      modifies this, manager
      ensures Valid() && Value() == Step(Name(), old(Value()), Event.Stop)
    {
      isConnected := false;
      filters := {};
      manager.Clear();
    }
  }
}
