/** Lengths of MQTT topics: the UTF-8 byte length of a UTF-16 string, computed from its code units. */
module MqttUtils {

  const MAX_MQTT_TOPIC_UTF8_COUNT := 65535

  type CodeUnit = c: nat | c < 0x1_0000

  type Text = seq<CodeUnit>

  predicate IsHigh(c: CodeUnit) {
    0xD800 <= c <= 0xDBFF
  }

  predicate IsLow(c: CodeUnit) {
    0xDC00 <= c <= 0xDFFF
  }

  // ---------- Encoding by section 3 of RFC 3629 ----------

  /** Every surrogate is part of a pair. */
  predicate WellFormed(t: Text) {
    if t == [] then true
    else if IsHigh(t[0]) then |t| > 1 && IsLow(t[1]) && WellFormed(t[2..])
    else !IsLow(t[0]) && WellFormed(t[1..])
  }

  function Paired(high: CodeUnit, low: CodeUnit): nat
    requires IsHigh(high) && IsLow(low)
  {
    0x1_0000 + (high as int - 0xD800) * 0x400 + (low as int - 0xDC00)
  }

  /** The characters of a well-formed string. */
  function Characters(t: Text): seq<nat>
    requires WellFormed(t)
  {
    if t == [] then []
    else if IsHigh(t[0]) then [Paired(t[0], t[1])] + Characters(t[2..])
    else [t[0]] + Characters(t[1..])
  }

  function Encode(c: nat): seq<nat> {
    if c <= 0x7F then [c]
    else if c <= 0x7FF then [0xC0 + c / 0x40, 0x80 + c % 0x40]
    else if c <= 0xFFFF then [0xE0 + c / 0x1000, 0x80 + c / 0x40 % 0x40, 0x80 + c % 0x40]
    else [0xF0 + c / 0x4_0000, 0x80 + c / 0x1000 % 0x40, 0x80 + c / 0x40 % 0x40, 0x80 + c % 0x40]
  }

  function Utf8(characters: seq<nat>): seq<nat> {
    if characters == [] then [] else Encode(characters[0]) + Utf8(characters[1..])
  }

  // ---------- Counting ----------

  function UnitBytes(c: CodeUnit): nat {
    if c <= 0x007F then 1
    else if c <= 0x07FF then 2
    else if c <= 0xD7FF then 3
    else if c <= 0xDFFF then 2
    else 3
  }

  function ByteCount(t: Text): nat {
    if t == [] then 0 else ByteCount(t[..|t| - 1]) + UnitBytes(t[|t| - 1])
  }

  method GetUtf8BytesCount(str: Text) returns (count: nat)
    ensures count == ByteCount(str)
    ensures WellFormed(str) ==> count == |Utf8(Characters(str))|
  {
    count := 0;
    var i := 0;
    while i < |str|
      invariant 0 <= i <= |str|
      invariant count == ByteCount(str[..i])
    {
      var code := str[i];
      assert str[..i + 1][..i] == str[..i];
      if code <= 0x007F {
        count := count + 1;
      } else if code <= 0x07FF {
        count := count + 2;
      } else if code <= 0xD7FF {
        count := count + 3;
      } else if code <= 0xDFFF {
        count := count + 2;
      } else {
        count := count + 3;
      }
      i := i + 1;
    }
    assert str[..i] == str;
    if WellFormed(str) {
      CountIsEncodedLength(str);
    }
  }

  lemma {:induction false} CountOfConcat(a: Text, b: Text)
    ensures ByteCount(a + b) == ByteCount(a) + ByteCount(b)
  {
    if b == [] {
      assert a + b == a;
    } else {
      assert (a + b)[..|a + b| - 1] == a + b[..|b| - 1];
      CountOfConcat(a, b[..|b| - 1]);
    }
  }

  lemma {:induction false} CountOfUnit(c: CodeUnit)
    ensures ByteCount([c]) == UnitBytes(c)
  {
    assert [c][..0] == [];
  }

  /** The count is the length of the UTF-8 encoding of a well-formed string. */
  lemma {:induction false} CountIsEncodedLength(t: Text)
    requires WellFormed(t)
    ensures ByteCount(t) == |Utf8(Characters(t))|
  {
    if t == [] {
    } else if IsHigh(t[0]) {
      CountIsEncodedLength(t[2..]);
      assert t == [t[0]] + ([t[1]] + t[2..]);
      CountOfConcat([t[0]], [t[1]] + t[2..]);
      CountOfConcat([t[1]], t[2..]);
      CountOfUnit(t[0]);
      CountOfUnit(t[1]);
      FirstCharacter(t, 2);
    } else {
      CountIsEncodedLength(t[1..]);
      assert t == [t[0]] + t[1..];
      CountOfConcat([t[0]], t[1..]);
      CountOfUnit(t[0]);
      FirstCharacter(t, 1);
    }
  }

  lemma {:induction false} FirstCharacter(t: Text, n: nat)
    requires t != [] && WellFormed(t) && n == (if IsHigh(t[0]) then 2 else 1)
    ensures n <= |t| && WellFormed(t[n..]) && Characters(t) != []
    ensures |Utf8(Characters(t))| == |Encode(Characters(t)[0])| + |Utf8(Characters(t[n..]))|
    ensures |Encode(Characters(t)[0])| == if IsHigh(t[0]) then 4 else UnitBytes(t[0])
  {
    assert Characters(t)[1..] == Characters(t[n..]);
  }

  // ---------- Limits ----------

  lemma {:induction false} CountAtMost(t: Text)
    ensures |t| <= ByteCount(t) <= 3 * |t|
  {
    if t != [] {
      CountAtMost(t[..|t| - 1]);
    }
  }

  /** The checks return whether they throw. */
  method AssertMqttTopicUtf8Count(utf8Count: nat) returns (throws: bool)
    ensures throws <==> utf8Count > MAX_MQTT_TOPIC_UTF8_COUNT
  {
    throws := utf8Count > MAX_MQTT_TOPIC_UTF8_COUNT;
  }

  /** Short topics are not counted, which never changes the outcome. */
  method AssertMqttTopicLength(mqttTopic: Text) returns (throws: bool)
    ensures throws <==> ByteCount(mqttTopic) > MAX_MQTT_TOPIC_UTF8_COUNT
  {
    CountAtMost(mqttTopic);
    if |mqttTopic| * 4 > MAX_MQTT_TOPIC_UTF8_COUNT {
      var utf8Count := GetUtf8BytesCount(mqttTopic);
      throws := AssertMqttTopicUtf8Count(utf8Count);
    } else {
      throws := false;
    }
  }
}
