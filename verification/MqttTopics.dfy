/** Topic formats: how an MQTT topic is constructed from its parts, taken apart again, and measured. */
module MqttTopics {
  import opened Orders
  import opened MqttUtils

  const SLASH: CodeUnit := 0x2F

  function UnitOf(c: char): CodeUnit {
    if c as int < 0x1_0000 then c as int else 0xFFFD
  }

  function TextOf(s: string): Text {
    seq(|s|, i requires 0 <= i < |s| => UnitOf(s[i]))
  }

  // ---------- Levels ----------

  predicate SlashFree(t: Text) {
    SLASH !in t
  }

  function FirstSlash(t: Text, from: nat := 0): (n: nat)
    requires from <= |t|
    ensures from <= n <= |t| && (n < |t| ==> t[n] == SLASH)
    ensures forall i :: from <= i < n ==> t[i] != SLASH
    decreases |t| - from
  {
    if from == |t| || t[from] == SLASH then from else FirstSlash(t, from + 1)
  }

  function Split(t: Text): (levels: seq<Text>)
    ensures |levels| > 0 && forall l :: l in levels ==> SlashFree(l)
    decreases |t|
  {
    var n := FirstSlash(t);
    if n == |t| then [t] else [t[..n]] + Split(t[n + 1..])
  }

  function Join(levels: seq<Text>): Text
    requires |levels| > 0
  {
    if |levels| == 1 then levels[0] else levels[0] + [SLASH] + Join(levels[1..])
  }

  lemma {:induction false} FirstSlashOfJoin(a: Text, b: Text, from: nat)
    requires SlashFree(a) && from <= |a|
    ensures FirstSlash(a + [SLASH] + b, from) == |a|
    decreases |a| - from
  {
    if from < |a| {
      assert (a + [SLASH] + b)[from] == a[from];
      FirstSlashOfJoin(a, b, from + 1);
    }
  }

  /** Levels without slashes survive being joined. */
  lemma {:induction false} SplitOfJoin(levels: seq<Text>)
    requires |levels| > 0 && forall l :: l in levels ==> SlashFree(l)
    ensures Split(Join(levels)) == levels
  {
    if |levels| == 1 {
      assert SlashFree(levels[0]);
    } else {
      var a, b := levels[0], Join(levels[1..]);
      SplitOfJoin(levels[1..]);
      FirstSlashOfJoin(a, b, 0);
      assert (a + [SLASH] + b)[..|a|] == a && (a + [SLASH] + b)[|a| + 1..] == b;
    }
  }

  /** Length of the joined levels, level by level. */
  function LevelCount(levels: seq<Text>): nat {
    if levels == [] then 0 else LevelCount(levels[..|levels| - 1]) + ByteCount(levels[|levels| - 1])
  }

  lemma {:induction false} JoinOneMore(levels: seq<Text>, last: Text)
    requires |levels| > 0
    ensures Join(levels + [last]) == Join(levels) + [SLASH] + last
  {
    if |levels| > 1 {
      JoinOneMore(levels[1..], last);
      assert (levels + [last])[1..] == levels[1..] + [last];
      assert levels[0] + [SLASH] + (Join(levels[1..]) + [SLASH] + last)
        == levels[0] + [SLASH] + Join(levels[1..]) + [SLASH] + last;
    } else {
      assert (levels + [last])[1..] == [last];
    }
  }

  /** The bytes of the levels and of the slashes between them are those of the topic. */
  lemma {:induction false} CountOfJoin(levels: seq<Text>)
    requires |levels| > 0
    ensures ByteCount(Join(levels)) == LevelCount(levels) + |levels| - 1
  {
    if |levels| == 1 {
      assert levels[..0] == [];
    } else {
      var before, last := levels[..|levels| - 1], levels[|levels| - 1];
      assert levels == before + [last];
      CountOfJoin(before);
      JoinOneMore(before, last);
      CountOfConcat(Join(before) + [SLASH], last);
      CountOfConcat(Join(before), [SLASH]);
      CountOfUnit(SLASH);
    }
  }

  // ---------- Formats ----------

  datatype Part = InterfaceName | MajorVersion | Manufacturer | SerialNumber | Topic

  const PARTS: seq<Part> := [InterfaceName, MajorVersion, Manufacturer, SerialNumber, Topic]

  function Ordinal(p: Part): nat {
    match p
    case InterfaceName => 0
    case MajorVersion => 1
    case Manufacturer => 2
    case SerialNumber => 3
    case Topic => 4
  }

  function Placeholder(p: Part): (t: Text)
    ensures SlashFree(t)
  {
    match p
    case InterfaceName => TextOf("%interfaceName%")
    case MajorVersion => TextOf("%majorVersion%")
    case Manufacturer => TextOf("%manufacturer%")
    case SerialNumber => TextOf("%serialNumber%")
    case Topic => TextOf("%topic%")
  }

  lemma {:induction false} PlaceholdersDiffer(p: Part, q: Part)
    requires p != q
    ensures Placeholder(p) != Placeholder(q)
  {
    assert Letter(p) != Letter(q);
  }

  /** The second and fourth characters of a placeholder tell which one it is. */
  function Letter(p: Part): (r: (CodeUnit, CodeUnit))
    ensures |Placeholder(p)| > 3 && r == (Placeholder(p)[1], Placeholder(p)[3])
  {
    match p
    case InterfaceName => (UnitOf('i'), UnitOf('t'))
    case MajorVersion => (UnitOf('m'), UnitOf('j'))
    case Manufacturer => (UnitOf('m'), UnitOf('n'))
    case SerialNumber => (UnitOf('s'), UnitOf('r'))
    case Topic => (UnitOf('t'), UnitOf('p'))
  }

  function IndexOf(levels: seq<Text>, level: Text, from: nat := 0): (n: int)
    requires from <= |levels|
    ensures n == -1 || from <= n < |levels|
    ensures n == -1 ==> forall i :: from <= i < |levels| ==> levels[i] != level
    ensures n != -1 ==> levels[n] == level && forall i :: from <= i < n ==> levels[i] != level
    decreases |levels| - from
  {
    if from == |levels| then -1 else if levels[from] == level then from else IndexOf(levels, level, from + 1)
  }

  predicate OccursAt(t: Text, part: Text, i: nat) {
    i + |part| <= |t| && t[i..i + |part|] == part
  }

  predicate Contains(t: Text, part: Text) {
    exists i: nat :: i <= |t| && OccursAt(t, part, i)
  }

  /** A placeholder is either missing, or one level that is nothing else. */
  predicate WellPlaced(levels: seq<Text>, p: Part) {
    forall i :: 0 <= i < |levels| && Contains(levels[i], Placeholder(p)) ==> i == IndexOf(levels, Placeholder(p))
  }

  predicate IsFormat(levels: seq<Text>) {
    && |levels| > 0
    && (forall p: Part :: WellPlaced(levels, p))
    && IndexOf(levels, Placeholder(Topic)) != -1
  }

  /** A placeholder occurs at most once, and where it does, as a level of its own. */
  predicate SingleLevel(levels: seq<Text>, p: Part) {
    && (forall i :: 0 <= i < |levels| && Contains(levels[i], Placeholder(p)) ==> levels[i] == Placeholder(p))
    && (forall i, j :: 0 <= i < j < |levels| && levels[i] == Placeholder(p) ==> levels[j] != Placeholder(p))
  }

  lemma {:induction false} ContainsItself(t: Text)
    ensures Contains(t, t)
  {
    assert OccursAt(t, t, 0);
  }

  lemma {:induction false} PlacementMeaning(levels: seq<Text>, p: Part)
    ensures WellPlaced(levels, p) <==> SingleLevel(levels, p)
  {
    ContainsItself(Placeholder(p));
  }

  /** What the check of a format amounts to. */
  lemma {:induction false} FormatMeaning(levels: seq<Text>)
    requires |levels| > 0
    ensures IsFormat(levels) <==> Placeholder(Topic) in levels && forall p: Part :: SingleLevel(levels, p)
  {
    forall p: Part
      ensures WellPlaced(levels, p) <==> SingleLevel(levels, p)
    {
      PlacementMeaning(levels, p);
    }
  }

  // ---------- Construction and deconstruction ----------

  function PartOf(level: Text): Option<Part> {
    if level == Placeholder(InterfaceName) then Some(InterfaceName)
    else if level == Placeholder(MajorVersion) then Some(MajorVersion)
    else if level == Placeholder(Manufacturer) then Some(Manufacturer)
    else if level == Placeholder(SerialNumber) then Some(SerialNumber)
    else if level == Placeholder(Topic) then Some(Topic)
    else None
  }

  lemma {:induction false} PartOfPlaceholder(p: Part)
    ensures PartOf(Placeholder(p)) == Some(p)
  {
    forall q: Part | q != p
      ensures Placeholder(p) != Placeholder(q)
    {
      PlaceholdersDiffer(p, q);
    }
  }

  datatype Values = Values(interfaceName: Text, majorVersion: Text, manufacturer: Text, serialNumber: Text, topic: Text)

  function ValueOf(v: Values, p: Part): Text {
    match p
    case InterfaceName => v.interfaceName
    case MajorVersion => v.majorVersion
    case Manufacturer => v.manufacturer
    case SerialNumber => v.serialNumber
    case Topic => v.topic
  }

  predicate SlashFreeValues(v: Values) {
    forall p: Part :: SlashFree(ValueOf(v, p))
  }

  function FilledLevel(level: Text, v: Values): Text {
    var p := PartOf(level);
    if p.None? then level else ValueOf(v, p.value)
  }

  function Filled(format: seq<Text>, v: Values): seq<Text> {
    seq(|format|, i requires 0 <= i < |format| => FilledLevel(format[i], v))
  }

  function TopicOf(format: seq<Text>, v: Values): Text
    requires |format| > 0
  {
    Join(Filled(format, v))
  }

  /** The level of a topic at the place of a part. */
  function PartIn(format: seq<Text>, p: Part, mqttTopic: Text): Option<Text> {
    var levels, i := Split(mqttTopic), IndexOf(format, Placeholder(p));
    if 0 <= i < |levels| then Some(levels[i]) else None
  }

  predicate SlashFreeLevels(format: seq<Text>) {
    forall l :: l in format ==> SlashFree(l)
  }

  lemma {:induction false} SplitTopic(format: seq<Text>, v: Values)
    requires |format| > 0 && SlashFreeLevels(format) && SlashFreeValues(v)
    ensures Split(TopicOf(format, v)) == Filled(format, v)
  {
    forall l | l in Filled(format, v)
      ensures SlashFree(l)
    {
      var i :| 0 <= i < |format| && Filled(format, v)[i] == l;
      assert format[i] in format;
    }
    SplitOfJoin(Filled(format, v));
  }

  /** A constructed topic is taken apart into what it was constructed from, as far as the format has a place for it. */
  lemma {:induction false} RoundTrip(format: seq<Text>, v: Values, p: Part)
    requires |format| > 0 && SlashFreeLevels(format) && SlashFreeValues(v)
    ensures PartIn(format, p, TopicOf(format, v)) == if Placeholder(p) in format then Some(ValueOf(v, p)) else None
  {
    SplitTopic(format, v);
    PartOfPlaceholder(p);
  }

  /** Different values of a part that the format has a place for give different topics. */
  lemma {:induction false} TopicsDiffer(format: seq<Text>, v: Values, w: Values, p: Part)
    requires |format| > 0 && SlashFreeLevels(format) && SlashFreeValues(v) && SlashFreeValues(w)
    requires Placeholder(p) in format && ValueOf(v, p) != ValueOf(w, p)
    ensures TopicOf(format, v) != TopicOf(format, w)
  {
    RoundTrip(format, v, p);
    RoundTrip(format, w, p);
  }

  /** The part of the protocol version before its first dot. */
  function MajorVersionOf(protocolVersion: Text): Text {
    TextOf("v") + UpToDot(protocolVersion)
  }

  function UpToDot(t: Text): Text {
    var n := IndexOfUnit(t, UnitOf('.'));
    if n == -1 then [] else t[..n]
  }

  /**
   Versions that differ only behind the first dot have the same topics, with `v` and the part before it as a level.
   */
  lemma {:induction false} MajorVersionIs(major: Text, rest: Text)
    requires UnitOf('.') !in major
    ensures MajorVersionOf(major + [UnitOf('.')] + rest) == TextOf("v") + major
    ensures MajorVersionOf(major) == TextOf("v")
  {
    IndexOfUnitIs(major + [UnitOf('.')] + rest, UnitOf('.'), |major|, 0);
    assert (major + [UnitOf('.')] + rest)[..|major|] == major;
    NoUnit(major, UnitOf('.'), 0);
    assert TextOf("v") + [] == TextOf("v");
  }

  lemma {:induction false} IndexOfUnitIs(t: Text, c: CodeUnit, n: nat, from: nat)
    requires from <= n < |t| && t[n] == c && forall i :: 0 <= i < n ==> t[i] != c
    ensures IndexOfUnit(t, c, from) == n
    decreases n - from
  {
    if from < n {
      IndexOfUnitIs(t, c, n, from + 1);
    }
  }

  lemma {:induction false} NoUnit(t: Text, c: CodeUnit, from: nat)
    requires from <= |t| && c !in t
    ensures IndexOfUnit(t, c, from) == -1
    decreases |t| - from
  {
    if from < |t| {
      NoUnit(t, c, from + 1);
    }
  }

  function IndexOfUnit(t: Text, c: CodeUnit, from: nat := 0): (n: int)
    requires from <= |t|
    ensures n == -1 || from <= n < |t|
    decreases |t| - from
  {
    if from == |t| then -1 else if t[from] == c then from else IndexOfUnit(t, c, from + 1)
  }

  // ---------- The compiled format, with its one array of levels ----------

  datatype FormatError = Misplaced(part: Part) | TopicMissing

  datatype FormatCheck = Usable | Unusable(error: FormatError)

  /** The placeholder occurs in a level other than its own. */
  method IsMisplaced(levels: seq<Text>, p: Part, index: int) returns (misplaced: bool)
    requires index == IndexOf(levels, Placeholder(p))
    ensures misplaced <==> !WellPlaced(levels, p)
  {
    var li := 0;
    while li < |levels|
      invariant 0 <= li <= |levels|
      invariant forall j :: 0 <= j < li && Contains(levels[j], Placeholder(p)) ==> j == index
    {
      if Contains(levels[li], Placeholder(p)) && li != index {
        return true;
      }
      li := li + 1;
    }
    return false;
  }

  method FindMisplaced(levels: seq<Text>, indices: seq<int>) returns (misplaced: Option<Part>)
    requires |indices| == |PARTS| && forall k :: 0 <= k < |PARTS| ==>
      indices[k] == IndexOf(levels, Placeholder(PARTS[k]))
    ensures misplaced.None? ==> forall k :: 0 <= k < |PARTS| ==> WellPlaced(levels, PARTS[k])
    ensures misplaced.Some? ==> !WellPlaced(levels, misplaced.value)
  {
    var i := 0;
    while i < |indices|
      invariant 0 <= i <= |indices|
      invariant forall k :: 0 <= k < i ==> WellPlaced(levels, PARTS[k])
    {
      var elsewhere := IsMisplaced(levels, PARTS[i], indices[i]);
      if elsewhere {
        return Some(PARTS[i]);
      }
      i := i + 1;
    }
    return None;
  }

  method CheckFormat(levels: seq<Text>, indices: seq<int>) returns (r: FormatCheck)
    requires |levels| > 0 && |indices| == |PARTS|
    requires forall k :: 0 <= k < |PARTS| ==> indices[k] == IndexOf(levels, Placeholder(PARTS[k]))
    ensures r.Usable? <==> IsFormat(levels)
  {
    var misplaced := FindMisplaced(levels, indices);
    if misplaced.Some? {
      return Unusable(Misplaced(misplaced.value));
    }
    FormatChecked(levels);
    if indices[4] == -1 {
      return Unusable(TopicMissing);
    }
    return Usable;
  }

  lemma {:induction false} FormatChecked(levels: seq<Text>)
    requires |levels| > 0 && forall k :: 0 <= k < |PARTS| ==> WellPlaced(levels, PARTS[k])
    ensures IsFormat(levels) <==> IndexOf(levels, Placeholder(PARTS[4])) != -1
  {
    EveryPart(levels);
    assert PARTS[4] == Topic;
  }

  lemma {:induction false} EveryPart(levels: seq<Text>)
    requires forall k :: 0 <= k < |PARTS| ==> WellPlaced(levels, PARTS[k])
    ensures forall p: Part :: WellPlaced(levels, p)
  {
    forall p: Part
      ensures WellPlaced(levels, p)
    {
      assert PARTS[Ordinal(p)] == p;
    }
  }

  class MqttTopicFormat {
    ghost const format: seq<Text>
    const levels: array<Text>
    const indices: seq<int>
    const interfaceName: Text
    const majorVersion: Text

    ghost predicate Valid()
      reads levels
    {
      && IsFormat(format) && SlashFreeLevels(format) && levels.Length == |format|
      && |indices| == |PARTS| && (forall k :: 0 <= k < |PARTS| ==> indices[k] == IndexOf(format, Placeholder(PARTS[k])))
      && (forall i :: 0 <= i < |format| && PartOf(format[i]).None? ==> levels[i] == format[i])
    }

    constructor (format: seq<Text>, indices: seq<int>, interfaceName: Text, majorVersion: Text)
      requires IsFormat(format) && SlashFreeLevels(format)
      requires |indices| == |PARTS| && forall k :: 0 <= k < |PARTS| ==>
        indices[k] == IndexOf(format, Placeholder(PARTS[k]))
      ensures Valid() && fresh(levels) && this.format == format
      ensures this.interfaceName == interfaceName && this.majorVersion == majorVersion
    {
      this.format, this.indices, this.interfaceName, this.majorVersion := format, indices, interfaceName, majorVersion;
      levels := new Text[|format|](i requires 0 <= i < |format| => format[i]);
    }

    /** The values that a topic of this client is constructed from. */
    function ValuesFor(manufacturer: Text, serialNumber: Text, topic: Text): Values {
      Values(interfaceName, majorVersion, manufacturer, serialNumber, topic)
    }

    /** The level of a part that the format has no place for is not stored. */
    method Put(k: nat, value: Text)
      requires Valid() && k < |PARTS|
      modifies levels
      ensures Valid()
      ensures forall i :: 0 <= i < |format| ==> levels[i] == if format[i] == Placeholder(PARTS[k]) then value
        else old(levels[i])
    {
      if indices[k] != -1 {
        PlacementMeaning(format, PARTS[k]);
        PartOfPlaceholder(PARTS[k]);
        assert WellPlaced(format, PARTS[k]);
        levels[indices[k]] := value;
      }
    }

    method FillLevels(manufacturer: Text, serialNumber: Text, topic: Text)
      requires Valid()
      modifies levels
      ensures Valid() && levels[..] == Filled(format, ValuesFor(manufacturer, serialNumber, topic))
    {
      Put(0, interfaceName);
      Put(1, majorVersion);
      Put(2, manufacturer);
      Put(3, serialNumber);
      Put(4, topic);
      forall i | 0 <= i < |format|
        ensures levels[i] == FilledLevel(format[i], ValuesFor(manufacturer, serialNumber, topic))
      {
        LevelFilled(format[i], ValuesFor(manufacturer, serialNumber, topic));
      }
    }

    /** The last value put is the first looked at. */
    lemma {:induction false} LevelFilled(level: Text, v: Values)
      ensures FilledLevel(level, v) ==
              if level == Placeholder(PARTS[4]) then v.topic
              else if level == Placeholder(PARTS[3]) then v.serialNumber
              else if level == Placeholder(PARTS[2]) then v.manufacturer
              else if level == Placeholder(PARTS[1]) then v.majorVersion
              else if level == Placeholder(PARTS[0]) then v.interfaceName
              else if PartOf(level).None? then level else FilledLevel(level, v)
    {
      PartOfPlaceholder(InterfaceName);
      PartOfPlaceholder(MajorVersion);
      PartOfPlaceholder(Manufacturer);
      PartOfPlaceholder(SerialNumber);
      PartOfPlaceholder(Topic);
    }

    /** The topic does not depend on what the array was filled with before. */
    method ConstructMqttTopic(manufacturer: Text, serialNumber: Text, topic: Text) returns (mqttTopic: Text)
      requires Valid()
      modifies levels
      ensures Valid() && mqttTopic == TopicOf(format, ValuesFor(manufacturer, serialNumber, topic))
    {
      FillLevels(manufacturer, serialNumber, topic);
      mqttTopic := Join(levels[..]);
    }

    method GetMqttTopicUtf8Length(manufacturer: Text, serialNumber: Text, topic: Text) returns (length: nat)
      requires Valid()
      modifies levels
      ensures Valid() && length == ByteCount(TopicOf(format, ValuesFor(manufacturer, serialNumber, topic)))
    {
      FillLevels(manufacturer, serialNumber, topic);
      length := 0;
      var i := 0;
      while i < levels.Length
        invariant 0 <= i <= levels.Length
        invariant Valid() && levels[..] == Filled(format, ValuesFor(manufacturer, serialNumber, topic))
        invariant length == LevelCount(levels[..i]) + (if i == levels.Length then i - 1 else i)
      {
        var count := GetUtf8BytesCount(levels[i]);
        assert levels[..i + 1][..i] == levels[..i];
        length := length + count + (if i == levels.Length - 1 then 0 else 1);
        i := i + 1;
      }
      assert levels[..i] == levels[..];
      CountOfJoin(levels[..]);
    }

    method DeconstructMqttTopic(mqttTopic: Text)
      returns (manufacturer: Option<Text>, serialNumber: Option<Text>, topic: Option<Text>)
      requires Valid()
      ensures manufacturer == PartIn(format, Manufacturer, mqttTopic)
      ensures serialNumber == PartIn(format, SerialNumber, mqttTopic)
      ensures topic == PartIn(format, Topic, mqttTopic)
    {
      assert indices[2] == IndexOf(format, Placeholder(PARTS[2])) && PARTS[2] == Manufacturer;
      assert indices[3] == IndexOf(format, Placeholder(PARTS[3])) && PARTS[3] == SerialNumber;
      assert indices[4] == IndexOf(format, Placeholder(PARTS[4])) && PARTS[4] == Topic;
      var mqttLevels := Split(mqttTopic);
      manufacturer := if 0 <= indices[2] < |mqttLevels| then Some(mqttLevels[indices[2]]) else None;
      serialNumber := if 0 <= indices[3] < |mqttLevels| then Some(mqttLevels[indices[3]]) else None;
      topic := if 0 <= indices[4] < |mqttLevels| then Some(mqttLevels[indices[4]]) else None;
    }
  }

  method CompileMqttTopic(topicFormat: Text, interfaceName: Text, protocolVersion: Text)
    returns (compiled: MqttTopicFormat?, check: FormatCheck)
    ensures compiled != null <==> check.Usable?
    ensures check.Usable? <==> IsFormat(Split(topicFormat))
    ensures compiled != null ==>
      fresh(compiled) && compiled.Valid() && fresh(compiled.levels) && compiled.format == Split(topicFormat)
    ensures compiled != null ==>
      compiled.interfaceName == interfaceName && compiled.majorVersion == MajorVersionOf(protocolVersion)
  {
    var levels := Split(topicFormat);
    var indices := seq(|PARTS|, k requires 0 <= k < |PARTS| => IndexOf(levels, Placeholder(PARTS[k])));
    check := CheckFormat(levels, indices);
    if check.Usable? {
      compiled := new MqttTopicFormat(levels, indices, interfaceName, MajorVersionOf(protocolVersion));
    } else {
      compiled := null;
    }
  }
}
