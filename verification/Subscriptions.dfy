/** The index of subscriptions: a trie over topic, serial number and manufacturer, against the flat list of them. */
module Subscriptions {
  import opened Orders
  import opened MqttUtils
  import opened MqttTopics

  type Id = string

  /** A level of a subscription; none is the wildcard. */
  type Key = Option<Text>

  datatype Pattern = Pattern(topic: Key, serialNumber: Key, manufacturer: Key)

  /** A live subscription; the id stands for its handler. */
  datatype Subscription = Subscription(id: Id, pattern: Pattern)

  /** The parts of an inbound topic; a part may be unknown. */
  datatype Path = Path(topic: Key, serialNumber: Key, manufacturer: Key)

  predicate KeyMatches(k: Key, t: Key) {
    k == None || k == t
  }

  predicate IsConcrete(path: Path) {
    path.topic.Some? && path.serialNumber.Some? && path.manufacturer.Some?
  }

  /** How often the search takes the way to a matching pattern: an unknown part leads to the wildcard twice. */
  function Ways(path: Path): nat {
    (if path.topic.None? then 2 else 1)
    * (if path.serialNumber.None? then 2 else 1)
    * (if path.manufacturer.None? then 2 else 1)
  }

  predicate Matches(p: Pattern, path: Path) {
    KeyMatches(p.topic, path.topic) && KeyMatches(p.serialNumber, path.serialNumber)
      && KeyMatches(p.manufacturer, path.manufacturer)
  }

  // ---------- The flat list ----------

  /** Ids of the subscriptions with pattern `p`, in the order of their addition. */
  function IdsFor(live: seq<Subscription>, p: Pattern): seq<Id> {
    if live == [] then []
    else
      var last := live[|live| - 1];
      IdsFor(live[..|live| - 1], p) + (if last.pattern == p then [last.id] else [])
  }

  ghost predicate DistinctIds(live: seq<Subscription>) {
    forall i, j :: 0 <= i < j < |live| ==> live[i].id != live[j].id
  }

  lemma {:induction false} IdsForContent(live: seq<Subscription>, p: Pattern, id: Id)
    requires DistinctIds(live)
    ensures multiset(IdsFor(live, p))[id] == if Subscription(id, p) in live then 1 else 0
  {
    if live != [] {
      var before, last := live[..|live| - 1], live[|live| - 1];
      IdsForContent(before, p, id);
      assert live == before + [last];
      if last.pattern == p {
        assert multiset(IdsFor(live, p)) == multiset(IdsFor(before, p)) + multiset{last.id};
      } else {
        assert IdsFor(live, p) == IdsFor(before, p);
      }
    }
  }

  lemma {:induction false} IdsForAdded(live: seq<Subscription>, s: Subscription, p: Pattern)
    ensures IdsFor(live + [s], p) == IdsFor(live, p) + (if s.pattern == p then [s.id] else [])
  {
    assert (live + [s])[..|live|] == live;
  }

  /** The list without the subscription with the given id. */
  function Without(live: seq<Subscription>, id: Id): seq<Subscription> {
    if live == [] then []
    else Without(live[..|live| - 1], id) + (if live[|live| - 1].id == id then [] else [live[|live| - 1]])
  }

  function Dropped(ids: seq<Id>, id: Id): seq<Id> {
    if ids == [] then []
    else Dropped(ids[..|ids| - 1], id) + (if ids[|ids| - 1] == id then [] else [ids[|ids| - 1]])
  }

  lemma {:induction false} DroppedAdded(ids: seq<Id>, x: Id, id: Id)
    ensures Dropped(ids + [x], id) == Dropped(ids, id) + (if x == id then [] else [x])
  {
    assert (ids + [x])[..|ids|] == ids;
  }

  lemma {:induction false} IdsForWithout(live: seq<Subscription>, id: Id, p: Pattern)
    ensures IdsFor(Without(live, id), p) == Dropped(IdsFor(live, p), id)
  {
    if live != [] {
      var before, last := live[..|live| - 1], live[|live| - 1];
      IdsForWithout(before, id, p);
      if last.id != id {
        IdsForAdded(Without(before, id), last, p);
      } else {
        assert Without(live, id) == Without(before, id);
      }
      if last.pattern == p {
        DroppedAdded(IdsFor(before, p), last.id, id);
      } else {
        assert IdsFor(live, p) == IdsFor(before, p);
      }
    }
  }

  lemma {:induction false} WithoutContent(live: seq<Subscription>, id: Id)
    ensures forall s :: s in Without(live, id) <==> s in live && s.id != id
    ensures DistinctIds(live) ==> DistinctIds(Without(live, id))
  {
    if live != [] {
      var before, last := live[..|live| - 1], live[|live| - 1];
      WithoutContent(before, id);
      assert live == before + [last];
      if DistinctIds(live) {
        forall s | s in Without(before, id)
          ensures s.id != last.id
        {
          var i :| 0 <= i < |before| && before[i] == s;
          assert live[i] == s;
        }
      }
    }
  }

  lemma {:induction false} WithoutNone(live: seq<Subscription>, id: Id)
    requires forall s :: s in live ==> s.id != id
    ensures Without(live, id) == live
  {
    if live != [] {
      WithoutNone(live[..|live| - 1], id);
    }
  }

  /** Dropping an id that is not there changes nothing. */
  lemma {:induction false} DroppedNone(ids: seq<Id>, id: Id)
    requires id !in ids
    ensures Dropped(ids, id) == ids
  {
    if ids != [] {
      DroppedNone(ids[..|ids| - 1], id);
    }
  }

  lemma {:induction false} InIdsFor(live: seq<Subscription>, p: Pattern, id: Id)
    ensures id in IdsFor(live, p) <==> Subscription(id, p) in live
  {
    if live != [] {
      assert live == live[..|live| - 1] + [live[|live| - 1]];
      InIdsFor(live[..|live| - 1], p, id);
    }
  }

  // ---------- The trie ----------

  /** The subscriptions of one pattern, and their MQTT topic. */
  datatype Leaf = Leaf(ids: seq<Id>, mqttTopic: Text)

  type Leaves = map<Key, Leaf>

  type Trie = map<Key, map<Key, Leaves>>

  predicate HasLeaf(trie: Trie, p: Pattern) {
    p.topic in trie && p.serialNumber in trie[p.topic] && p.manufacturer in trie[p.topic][p.serialNumber]
  }

  function LeafOf(trie: Trie, p: Pattern): Leaf
    requires HasLeaf(trie, p)
  {
    trie[p.topic][p.serialNumber][p.manufacturer]
  }

  function LeafIds(trie: Trie, p: Pattern): seq<Id> {
    if HasLeaf(trie, p) then LeafOf(trie, p).ids else []
  }

  function PutLeaf(trie: Trie, p: Pattern, leaf: Leaf): Trie {
    var byTopic := if p.topic in trie then trie[p.topic] else map[];
    var bySerialNumber := if p.serialNumber in byTopic then byTopic[p.serialNumber] else map[];
    trie[p.topic := byTopic[p.serialNumber := bySerialNumber[p.manufacturer := leaf]]]
  }

  lemma {:induction false} PutLeafAt(trie: Trie, p: Pattern, leaf: Leaf, q: Pattern)
    ensures HasLeaf(PutLeaf(trie, p, leaf), q) <==> p == q || HasLeaf(trie, q)
    ensures p == q ==> LeafOf(PutLeaf(trie, p, leaf), q) == leaf
    ensures p != q && HasLeaf(trie, q) ==> LeafOf(PutLeaf(trie, p, leaf), q) == LeafOf(trie, q)
  {
  }

  /** The trie holds exactly the live subscriptions, each under its pattern. */
  ghost predicate Indexes(trie: Trie, live: seq<Subscription>) {
    forall p: Pattern :: LeafIds(trie, p) == IdsFor(live, p)
  }

  // ---------- Finding ----------

  function FindManufacturer(leaves: Leaves, path: Path): seq<Id> {
    (if path.manufacturer in leaves then leaves[path.manufacturer].ids else [])
    + (if None in leaves then leaves[None].ids else [])
  }

  function FindSerialNumber(m: map<Key, Leaves>, path: Path): seq<Id> {
    (if path.serialNumber in m then FindManufacturer(m[path.serialNumber], path) else [])
    + (if None in m then FindManufacturer(m[None], path) else [])
  }

  /** What is found on the way through the trie, following the key and then the wildcard at every level. */
  function Find(trie: Trie, path: Path): seq<Id> {
    (if path.topic in trie then FindSerialNumber(trie[path.topic], path) else [])
    + (if None in trie then FindSerialNumber(trie[None], path) else [])
  }

  function Occurrences(trie: Trie, p: Pattern, id: Id): nat {
    multiset(LeafIds(trie, p))[id]
  }

  lemma {:induction false} FindManufacturerCount(trie: Trie, t: Key, s: Key, path: Path, id: Id)
    requires t in trie && s in trie[t]
    ensures multiset(FindManufacturer(trie[t][s], path))[id]
            == Occurrences(trie, Pattern(t, s, path.manufacturer), id) + Occurrences(trie, Pattern(t, s, None), id)
  {
  }

  lemma {:induction false} FindSerialNumberCount(trie: Trie, t: Key, path: Path, id: Id)
    requires t in trie
    ensures var s, m := path.serialNumber, path.manufacturer;
      multiset(FindSerialNumber(trie[t], path))[id]
      == Occurrences(trie, Pattern(t, s, m), id) + Occurrences(trie, Pattern(t, s, None), id)
         + Occurrences(trie, Pattern(t, None, m), id) + Occurrences(trie, Pattern(t, None, None), id)
  {
    if path.serialNumber in trie[t] {
      FindManufacturerCount(trie, t, path.serialNumber, path, id);
    }
    if None in trie[t] {
      FindManufacturerCount(trie, t, None, path, id);
    }
  }

  lemma {:induction false} FindCount(trie: Trie, path: Path, id: Id)
    ensures var t, s, m := path.topic, path.serialNumber, path.manufacturer;
      multiset(Find(trie, path))[id]
      == Occurrences(trie, Pattern(t, s, m), id) + Occurrences(trie, Pattern(t, s, None), id)
         + Occurrences(trie, Pattern(t, None, m), id) + Occurrences(trie, Pattern(t, None, None), id)
         + Occurrences(trie, Pattern(None, s, m), id) + Occurrences(trie, Pattern(None, s, None), id)
         + Occurrences(trie, Pattern(None, None, m), id) + Occurrences(trie, Pattern(None, None, None), id)
  {
    if path.topic in trie {
      FindSerialNumberCount(trie, path.topic, path, id);
    }
    if None in trie {
      FindSerialNumberCount(trie, None, path, id);
    }
  }

  function Indicator(p: Pattern, q: Pattern): nat {
    if p == q then 1 else 0
  }

  /** The search passes a pattern if it matches, and never otherwise. */
  lemma {:induction false} OneWay(q: Pattern, path: Path)
    ensures var t, s, m := path.topic, path.serialNumber, path.manufacturer;
      Indicator(Pattern(t, s, m), q) + Indicator(Pattern(t, s, None), q)
      + Indicator(Pattern(t, None, m), q) + Indicator(Pattern(t, None, None), q)
      + Indicator(Pattern(None, s, m), q) + Indicator(Pattern(None, s, None), q)
      + Indicator(Pattern(None, None, m), q) + Indicator(Pattern(None, None, None), q)
      == if Matches(q, path) then Ways(path) else 0
  {
  }

  lemma {:induction false} FindsLive(trie: Trie, live: seq<Subscription>, path: Path, s: Subscription)
    requires Indexes(trie, live) && DistinctIds(live) && s in live
    ensures multiset(Find(trie, path))[s.id] == if Matches(s.pattern, path) then Ways(path) else 0
  {
    forall p: Pattern
      ensures Occurrences(trie, p, s.id) == Indicator(p, s.pattern)
    {
      assert LeafIds(trie, p) == IdsFor(live, p);
      IdsForContent(live, p, s.id);
      if Subscription(s.id, p) in live {
        SamePattern(live, s, Subscription(s.id, p));
      }
    }
    FindCount(trie, path, s.id);
    OneWay(s.pattern, path);
  }

  lemma {:induction false} FindsNoOther(trie: Trie, live: seq<Subscription>, path: Path, id: Id)
    requires Indexes(trie, live) && DistinctIds(live) && forall s :: s in live ==> s.id != id
    ensures multiset(Find(trie, path))[id] == 0
  {
    forall p: Pattern
      ensures Occurrences(trie, p, id) == 0
    {
      assert LeafIds(trie, p) == IdsFor(live, p);
      IdsForContent(live, p, id);
    }
    FindCount(trie, path, id);
  }

  ghost predicate IsMatch(live: seq<Subscription>, id: Id, path: Path) {
    exists s :: s in live && s.id == id && Matches(s.pattern, path)
  }

  /**
   Every live subscription is found if its pattern matches, exactly once if all parts are known, and nothing else is
   found.
   */
  lemma {:induction false} FindsExactlyOnce(trie: Trie, live: seq<Subscription>, path: Path, id: Id)
    requires Indexes(trie, live) && DistinctIds(live)
    ensures multiset(Find(trie, path))[id] == if IsMatch(live, id, path) then Ways(path) else 0
    ensures Ways(path) == 1 <==> IsConcrete(path)
  {
    if s :| s in live && s.id == id {
      FindsLive(trie, live, path, s);
      forall r | r in live && r.id == id
        ensures r == s
      {
        SamePattern(live, r, s);
      }
    } else {
      FindsNoOther(trie, live, path, id);
    }
  }

  lemma {:induction false} SamePattern(live: seq<Subscription>, s: Subscription, t: Subscription)
    requires DistinctIds(live) && s in live && t in live && s.id == t.id
    ensures s == t
  {
  }

  // ---------- Patterns and MQTT topics ----------

  const PLUS: Text := [0x2B]

  function LevelFor(k: Key): Text {
    if k.None? then PLUS else k.value
  }

  function ValuesFor(interfaceName: Text, majorVersion: Text, p: Pattern): Values {
    Values(interfaceName, majorVersion, LevelFor(p.manufacturer), LevelFor(p.serialNumber), LevelFor(p.topic))
  }

  function TopicFor(format: seq<Text>, interfaceName: Text, majorVersion: Text, p: Pattern): Text
    requires |format| > 0
  {
    TopicOf(format, ValuesFor(interfaceName, majorVersion, p))
  }

  /** A value that may be used as a level: it is no wildcard, and contains no slash. */
  predicate ValidLevel(t: Text) {
    SlashFree(t) && t != PLUS
  }

  predicate ValidKey(k: Key) {
    k.Some? ==> ValidLevel(k.value)
  }

  predicate ValidPattern(p: Pattern) {
    ValidKey(p.topic) && ValidKey(p.serialNumber) && ValidKey(p.manufacturer)
  }

  predicate ValidPath(p: Path) {
    IsConcrete(p) && ValidLevel(p.topic.value) && ValidLevel(p.serialNumber.value) && ValidLevel(p.manufacturer.value)
  }

  /** The format has a place for every part of a pattern. */
  predicate NamesVehicle(format: seq<Text>) {
    Placeholder(Manufacturer) in format && Placeholder(SerialNumber) in format && Placeholder(Topic) in format
  }

  predicate SlashFreeParts(format: seq<Text>, interfaceName: Text, majorVersion: Text) {
    IsFormat(format) && SlashFreeLevels(format) && SlashFree(interfaceName) && SlashFree(majorVersion)
  }

  function PathValues(interfaceName: Text, majorVersion: Text, p: Path): Values
    requires IsConcrete(p)
  {
    Values(interfaceName, majorVersion, p.manufacturer.value, p.serialNumber.value, p.topic.value)
  }

  lemma {:induction false} PatternSlashFree(interfaceName: Text, majorVersion: Text, p: Pattern)
    requires SlashFree(interfaceName) && SlashFree(majorVersion) && ValidPattern(p)
    ensures SlashFreeValues(ValuesFor(interfaceName, majorVersion, p))
  {
  }

  /** Different patterns have different topics, if the format has a place for every part. */
  lemma {:induction false} TopicsInjective(format: seq<Text>, interfaceName: Text, majorVersion: Text, p: Pattern,
                                           q: Pattern)
    requires SlashFreeParts(format, interfaceName, majorVersion) && NamesVehicle(format) && ValidPattern(p)
      && ValidPattern(q) && p != q
    ensures TopicFor(format, interfaceName, majorVersion, p) != TopicFor(format, interfaceName, majorVersion, q)
  {
    var v, w := ValuesFor(interfaceName, majorVersion, p), ValuesFor(interfaceName, majorVersion, q);
    PatternSlashFree(interfaceName, majorVersion, p);
    PatternSlashFree(interfaceName, majorVersion, q);
    var part := if p.topic != q.topic then Topic else if p.serialNumber != q.serialNumber then SerialNumber
      else Manufacturer;
    assert ValueOf(v, part) != ValueOf(w, part);
    TopicsDiffer(format, v, w, part);
  }

  /** Matching by section 4.7.1.3 of MQTT 3.1.1: a plus sign stands for any one level. */
  predicate FilterMatches(filter: seq<Text>, levels: seq<Text>) {
    && |filter| == |levels|
    && forall i :: 0 <= i < |filter| ==> filter[i] == PLUS || filter[i] == levels[i]
  }

  lemma {:induction false} LevelMatches(level: Text, interfaceName: Text, majorVersion: Text, p: Pattern, path: Path)
    requires ValidPattern(p) && IsConcrete(path)
    ensures var f := FilledLevel(level, ValuesFor(interfaceName, majorVersion, p));
      var l := FilledLevel(level, PathValues(interfaceName, majorVersion, path));
      f == PLUS || f == l <==>
        match PartOf(level)
        case Some(Topic) => KeyMatches(p.topic, path.topic)
        case Some(SerialNumber) => KeyMatches(p.serialNumber, path.serialNumber)
        case Some(Manufacturer) => KeyMatches(p.manufacturer, path.manufacturer)
        case _ => true
  {
  }

  /** For a format with a place for every part, the index finds what a broker would deliver. */
  lemma {:induction false} MatchesIsFilterMatching(format: seq<Text>, interfaceName: Text, majorVersion: Text,
                                                   p: Pattern, path: Path)
    requires SlashFreeParts(format, interfaceName, majorVersion) && NamesVehicle(format) && ValidPattern(p)
      && ValidPath(path)
    ensures Matches(p, path) <==>
            FilterMatches(Split(TopicFor(format, interfaceName, majorVersion, p)),
                          Split(TopicOf(format, PathValues(interfaceName, majorVersion, path))))
  {
    var v, w := ValuesFor(interfaceName, majorVersion, p), PathValues(interfaceName, majorVersion, path);
    PatternSlashFree(interfaceName, majorVersion, p);
    SplitTopic(format, v);
    SplitTopic(format, w);
    forall i | 0 <= i < |format|
      ensures Filled(format, v)[i] == PLUS || Filled(format, v)[i] == Filled(format, w)[i] <==>
        match PartOf(format[i])
        case Some(Topic) => KeyMatches(p.topic, path.topic)
        case Some(SerialNumber) => KeyMatches(p.serialNumber, path.serialNumber)
        case Some(Manufacturer) => KeyMatches(p.manufacturer, path.manufacturer)
        case _ => true
    {
      LevelMatches(format[i], interfaceName, majorVersion, p, path);
    }
    PartOfPlaceholder(Topic);
    PartOfPlaceholder(SerialNumber);
    PartOfPlaceholder(Manufacturer);
  }
}
