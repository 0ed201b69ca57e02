/** Parsing a serialized PUBLISH: exactly when the message comes back. */
module PublishRoundTrip {
  import opened Bytes
  import opened PackedInt
  import opened Endian
  import opened Messages

  /** The parse has given the message: topic, payload, DUP and RETAIN, and the packet identifier where there is one. */
  predicate Restored(m: Message, parsed: (Outcome, Message)) {
    var (outcome, n) := parsed;
    && outcome == Returned(1)
    && n.topic == m.topic && n.payload == m.payload
    && n.duplicate == m.duplicate && n.retain == m.retain
    && (!m.qos.AtMostOnce? ==> n.packetId == m.packetId)
  }

  /** The message comes back in a fresh object of the same protocol version. */
  predicate ComesBack(v: Variant, m: Message, blank: Message) {
    Restored(m, Parsed(v, blank, Serialized(v, m)))
  }

  /** What the parser makes of the QoS bits the writer sets. */
  function Exchanged(q: QoS): QoS {
    match q case AtMostOnce => AtMostOnce case AtLeastOnce => ExactlyOnce case ExactlyOnce => AtLeastOnce
  }

  /** The first byte of a PUBLISH, taken apart again. */
  lemma FirstByteRead(v: Variant, m: Message, blank: Message)
    requires m.command == PUBLISH && Fresh(blank, m.version)
    ensures var n := WithFlags(v, blank, FirstByte(m));
            && n.command == PUBLISH && n.duplicate == m.duplicate && n.retain == m.retain
            && n.qos == (if v.Repaired? then m.qos else Exchanged(m.qos))
            && (HasPacketId(FirstByte(m)) <==> !m.qos.AtMostOnce?)
  {
  }

  /** A length byte that announces another makes the code see five of them. */
  lemma WidenedLength(b: byte)
    ensures Decoded(Widened(b), 4) == if b < 0x80 then (b as nat, 1) else (0x0FFF_FF80 + b - 0x80, 5)
  {
    if b >= 0x80 {
      var w := Widened(b);
      assert w % 256 == b && w / 256 == 0xFF_FFFF;
      assert Decoded(0, 0) == (0, 1);
      assert Decoded(0xFF, 1) == (127, 2);
      assert Decoded(0xFFFF, 2) == (127 + 128 * 127, 3);
      assert Decoded(0xFF_FFFF, 3) == (127 + 128 * (127 + 128 * 127), 4);
    }
  }

  function IdSize(withId: bool): nat {
    if withId then 2 else 0
  }

  function PropertiesSize(m: Message): nat {
    if m.version.V5? then 1 else 0
  }

  /** The parts of a PUBLISH body after the topic, and after the packet identifier. */
  function AfterTopic(m: Message): Data {
    (if m.qos.AtMostOnce? then [] else Prefix16(m.packetId)) + AfterId(m)
  }

  function AfterId(m: Message): Data {
    (if m.version.V5? then [0] else []) + m.payload
  }

  lemma BodyParts(m: Message)
    requires m.command == PUBLISH
    ensures Body(m) == Prefix16(|m.topic| % 0x1_0000) + (m.topic + AfterTopic(m))
    ensures |Body(m)| == 2 + |m.topic| + IdSize(!m.qos.AtMostOnce?) + PropertiesSize(m) + |m.payload|
  {
    hide Prefix16;
    var id := if m.qos.AtMostOnce? then [] else Prefix16(m.packetId);
    var properties := if m.version.V5? then [0] else [];
    assert VariableHeader(m) == StringField(m.topic) + id + properties && PayloadSuffix(m) == [];
    hide VariableHeader, PayloadSuffix;
    assert Body(m) == StringField(m.topic) + (id + (properties + m.payload));
  }

  lemma ParsedSizeAfterId(v: Variant, m: Message, msg: Data, idx: nat)
    requires ParsedAfterId(v, m, msg, idx).0 == Returned(1)
    ensures var n := ParsedAfterId(v, m, msg, idx).1;
            var used := idx + PropertiesSize(m);
            && used <= |msg| && n.topic == m.topic
            && n.payload == if v.AsWritten? && used + 1 == |msg| then m.payload else msg[used..]
  {
  }

  lemma ParsedSizeAfterTopic(v: Variant, m: Message, msg: Data, idx: nat)
    requires |msg| > 0 && ParsedAfterTopic(v, m, msg, idx).0 == Returned(1)
    ensures var n := ParsedAfterTopic(v, m, msg, idx).1;
            var used := idx + IdSize(HasPacketId(msg[0])) + PropertiesSize(m);
            && used <= |msg| && n.topic == m.topic
            && n.payload == if v.AsWritten? && used + 1 == |msg| then m.payload else msg[used..]
  {
    hide ParsedAfterId;
    if HasPacketId(msg[0]) {
      ParsedSizeAfterId(v, m.(packetId := 0x100 * At(msg, idx) as int + At(msg, idx + 1) as int), msg, idx + 2);
    } else {
      ParsedSizeAfterId(v, m, msg, idx);
    }
  }

  /** A parse of a PUBLISH that returns has accounted for every byte of its input, except that the code forgets a
      payload of one byte. */
  lemma EveryByteAccountedFor(v: Variant, m: Message, msg: Data, idx: nat)
    requires m.command == PUBLISH && 2 <= idx <= |msg|
    requires ParsedBody(v, m, msg, idx).0 == Returned(1)
    ensures var n := ParsedBody(v, m, msg, idx).1;
            var used := idx + 2 + |n.topic| + IdSize(HasPacketId(msg[0])) + PropertiesSize(m);
            && |n.topic| < 0x1_0000 && used <= |msg|
            && n.payload == if v.AsWritten? && used + 1 == |msg| then m.payload else msg[used..]
  {
    hide ParsedAfterTopic;
    var strlen := 0x100 * At(msg, idx) as int + At(msg, idx + 1) as int;
    ParsedSizeAfterTopic(v, m.(topic := Substr(msg, idx + 2, strlen)), msg, idx + 2 + strlen);
  }

  /** The same for a whole packet that has come back. */
  lemma ComesBackAccountedFor(v: Variant, m: Message, blank: Message)
    requires m.command == PUBLISH && Fresh(blank, m.version) && ComesBack(v, m, blank)
    requires |Serialized(v, m)| >= 2
    ensures var msg := Serialized(v, m);
            var used := ReadLength(v, msg).1 + 3 + |m.topic| + IdSize(!m.qos.AtMostOnce?) + PropertiesSize(m);
            && |m.topic| < 0x1_0000 && used <= |msg|
            && m.payload == if v.AsWritten? && used + 1 == |msg| then [] else msg[used..]
  {
    hide Body, LengthField, FirstByte, ParsedBody, ReadLength, WithFlags;
    var msg := Serialized(v, m);
    FirstByteRead(v, m, blank);
    FlagsOnly(v, blank, msg[0]);
    ParsedThroughBody(v, blank, msg);
    var n := WithFlags(v, blank, msg[0]).(messageLength := ReadLength(v, msg).0);
    EveryByteAccountedFor(v, n, msg, ReadLength(v, msg).1 + 1);
  }

  lemma ParsedThroughBody(v: Variant, blank: Message, msg: Data)
    requires |msg| >= 2 && Parsed(v, blank, msg).0 == Returned(1)
    ensures var (length, count) := ReadLength(v, msg);
            && count + 1 <= |msg|
            && Parsed(v, blank, msg)
               == ParsedBody(v, WithFlags(v, blank, msg[0]).(messageLength := length), msg, count + 1)
  {
  }

  /** So the message can only come back when the parser takes the length field to be as long as it is. */
  lemma SizesAgree(v: Variant, m: Message, blank: Message)
    requires m.command == PUBLISH && Fresh(blank, m.version) && ComesBack(v, m, blank)
    requires |Serialized(v, m)| >= 2
    ensures |m.topic| < 0x1_0000
    ensures ReadLength(v, Serialized(v, m)).1 == |LengthField(v, |Body(m)|)|
         || (v.AsWritten? && m.payload == []
             && ReadLength(v, Serialized(v, m)).1 + 1 == |LengthField(v, |Body(m)|)|)
  {
    ComesBackAccountedFor(v, m, blank);
    BodyParts(m);
    hide ComesBack, Body, LengthField, FirstByte, ReadLength;
  }

  /** What a read PUBLISH body leaves alone. */
  predicate SameFlags(m: Message, n: Message) {
    m.duplicate == n.duplicate && m.retain == n.retain && m.qos == n.qos
  }

  lemma AfterIdRead(v: Variant, m: Message, n: Message, msg: Data, idx: nat)
    requires m.version == n.version && idx <= |msg| && msg[idx..] == AfterId(m) && n.payload == []
    ensures var (outcome, r) := ParsedAfterId(v, n, msg, idx);
            && outcome == Returned(1) && SameFlags(n, r) && r.topic == n.topic && r.packetId == n.packetId
            && r.payload == if v.AsWritten? && |m.payload| == 1 then [] else m.payload
  {
  }

  lemma AfterTopicRead(v: Variant, m: Message, n: Message, msg: Data, idx: nat)
    requires m.version == n.version && 0 < idx <= |msg| && msg[idx..] == AfterTopic(m) && n.payload == []
    requires HasPacketId(msg[0]) <==> !m.qos.AtMostOnce?
    ensures var (outcome, r) := ParsedAfterTopic(v, n, msg, idx);
            && outcome == Returned(1) && SameFlags(n, r) && r.topic == n.topic
            && (!m.qos.AtMostOnce? ==> r.packetId == m.packetId)
            && r.payload == if v.AsWritten? && |m.payload| == 1 then [] else m.payload
  {
    hide ParsedAfterId, AfterId;
    if m.qos.AtMostOnce? {
      AfterIdRead(v, m, n, msg, idx);
    } else {
      var rest := msg[idx..];
      assert rest[..2] == Prefix16(m.packetId) && rest[2..] == AfterId(m);
      assert msg[idx] == rest[0] && msg[idx + 1] == rest[1];
      assert msg[idx + 2..] == rest[2..];
      AfterIdRead(v, m, n.(packetId := m.packetId), msg, idx + 2);
    }
  }

  /** Reading back a body from where it starts. */
  lemma BodyRead(v: Variant, m: Message, n: Message, msg: Data, idx: nat)
    requires m.command == n.command == PUBLISH && m.version == n.version && |m.topic| < 0x1_0000
    requires 2 <= idx <= |msg| && msg[idx..] == Body(m) && n.payload == []
    requires HasPacketId(msg[0]) <==> !m.qos.AtMostOnce?
    ensures var (outcome, r) := ParsedBody(v, n, msg, idx);
            && outcome == Returned(1) && SameFlags(n, r) && r.topic == m.topic
            && (!m.qos.AtMostOnce? ==> r.packetId == m.packetId)
            && r.payload == if v.AsWritten? && |m.payload| == 1 then [] else m.payload
  {
    hide ParsedAfterTopic, ParsedBody, AfterTopic, Body;
    BodyParts(m);
    var t := |m.topic|;
    TopicRead(v, n, msg, idx, m.topic, AfterTopic(m));
    AfterTopicRead(v, m, n.(topic := m.topic), msg, idx + 2 + t);
  }

  lemma TopicRead(v: Variant, n: Message, msg: Data, idx: nat, topic: Data, rest: Data)
    requires n.command == PUBLISH && |topic| < 0x1_0000
    requires 2 <= idx <= |msg| && msg[idx..] == Prefix16(|topic|) + (topic + rest)
    ensures msg[idx + 2 + |topic|..] == rest
    ensures ParsedBody(v, n, msg, idx) == ParsedAfterTopic(v, n.(topic := topic), msg, idx + 2 + |topic|)
  {
    hide ParsedAfterTopic;
    var body, t := msg[idx..], |topic|;
    assert body[..2] == Prefix16(t) && body[2..2 + t] == topic && body[2 + t..] == rest;
    assert msg[idx] == body[0] && msg[idx + 1] == body[1];
    assert Substr(msg, idx + 2, t) == body[2..2 + t];
    assert msg[idx + 2 + t..] == body[2 + t..];
  }

  lemma ShortFrame(v: Variant, m: Message)
    requires |Body(m)| < 128
    ensures LengthField(v, |Body(m)|) == [|Body(m)|]
  {
  }

  lemma ShortLengthRead(msg: Data)
    requires |msg| >= 2 && msg[1] < 128
    ensures ReadLength(AsWritten, msg) == (msg[1] as nat, 1)
  {
  }

  lemma TopicFits(m: Message)
    requires m.command == PUBLISH
    ensures |m.topic| < |Body(m)|
  {
  }

  /** A PUBLISH whose length takes one byte, read by the code. */
  lemma ShortFrameRead(m: Message, blank: Message)
    requires m.command == PUBLISH && Fresh(blank, m.version) && |Body(m)| < 128
    ensures var (outcome, r) := Parsed(AsWritten, blank, Serialized(AsWritten, m));
            && outcome == Returned(1) && r.topic == m.topic
            && r.duplicate == m.duplicate && r.retain == m.retain && r.qos == Exchanged(m.qos)
            && (!m.qos.AtMostOnce? ==> r.packetId == m.packetId)
            && r.payload == if |m.payload| == 1 then [] else m.payload
  {
    hide Body, ParsedBody, WithFlags, FirstByte, LengthField;
    var msg := Serialized(AsWritten, m);
    ShortFrame(AsWritten, m);
    FirstByteRead(AsWritten, m, blank);
    TopicFits(m);
    assert msg[0] == FirstByte(m) && msg[1] == |Body(m)| && msg[2..] == Body(m);
    ShortLengthRead(msg);
    hide ReadLength;
    FlagsOnly(AsWritten, blank, msg[0]);
    var n := WithFlags(AsWritten, blank, msg[0]).(messageLength := |Body(m)|);
    assert Parsed(AsWritten, blank, msg) == ParsedBody(AsWritten, n, msg, 2);
    hide Parsed, Serialized;
    BodyRead(AsWritten, m, n, msg, 2);
  }

  lemma FlagsOnly(v: Variant, m: Message, b0: byte)
    ensures var n := WithFlags(v, m, b0);
            n.version == m.version && n.payload == m.payload && n.command == TypeOf(b0)
  {
  }

  /** PUBLISH round trip of the code: exactly the messages whose remaining length is below 128 and whose payload is
      not a single byte come back, whatever their sizes. */
  lemma ComesBackExactly(m: Message, blank: Message)
    requires m.command == PUBLISH && Fresh(blank, m.version)
    ensures ComesBack(AsWritten, m, blank) <==> |Body(m)| < 128 && |m.payload| != 1
  {
    if |Body(m)| < 128 {
      ShortFrameRead(m, blank);
    } else if ComesBack(AsWritten, m, blank) {
      BodyParts(m);
      LongFrameRefused(m, blank);
    }
  }

  lemma LongFrameRefused(m: Message, blank: Message)
    requires m.command == PUBLISH && Fresh(blank, m.version) && ComesBack(AsWritten, m, blank)
    ensures |Body(m)| < 128
  {
    var msg := Serialized(AsWritten, m);
    var field := LengthField(AsWritten, |Body(m)|);
    BodyParts(m);
    SizesAgree(AsWritten, m, blank);
    WidenedLength(msg[1]);
    hide Body, ParsedBody;
    assert |field| > 0 ==> msg[1] == field[0];
  }

  /** Their QoS comes back exchanged, so that only QoS 0 is kept. */
  lemma QosExchanged(m: Message, blank: Message)
    requires m.command == PUBLISH && Fresh(blank, m.version) && ComesBack(AsWritten, m, blank)
    ensures Parsed(AsWritten, blank, Serialized(AsWritten, m)).1.qos == Exchanged(m.qos)
  {
    ComesBackExactly(m, blank);
    ShortFrameRead(m, blank);
  }

  lemma RepairedRead(m: Message, blank: Message)
    requires m.command == PUBLISH && Fresh(blank, m.version)
    requires |m.topic| < 0x1_0000 && |Body(m)| < 0x1000_0000
    ensures ComesBack(Repaired, m, blank) && Parsed(Repaired, blank, Serialized(Repaired, m)).1.qos == m.qos
  {
    hide Body, ParsedBody, WithFlags, FirstByte, ReadLength, LengthField;
    var msg := Serialized(Repaired, m);
    var k := |LengthField(Repaired, |Body(m)|)|;
    RepairedLengthRead(m);
    FirstByteRead(Repaired, m, blank);
    FlagsOnly(Repaired, blank, msg[0]);
    var n := WithFlags(Repaired, blank, msg[0]).(messageLength := |Body(m)|);
    assert msg[0] == FirstByte(m) && msg[1 + k..] == Body(m);
    assert Parsed(Repaired, blank, msg) == ParsedBody(Repaired, n, msg, 1 + k);
    hide Parsed, Serialized;
    BodyRead(Repaired, m, n, msg, 1 + k);
  }

  /** The repaired code brings back every PUBLISH the format can carry, QoS included, and no other. */
  lemma RepairedComesBackExactly(m: Message, blank: Message)
    requires m.command == PUBLISH && Fresh(blank, m.version)
    ensures ComesBack(Repaired, m, blank) && Parsed(Repaired, blank, Serialized(Repaired, m)).1.qos == m.qos
       <==> |m.topic| < 0x1_0000 && |Body(m)| < 0x1000_0000
  {
    if |m.topic| < 0x1_0000 && |Body(m)| < 0x1000_0000 {
      RepairedRead(m, blank);
    } else if ComesBack(Repaired, m, blank) {
      BodyParts(m);
      RepairedFits(m, blank);
    }
  }

  lemma RepairedFits(m: Message, blank: Message)
    requires m.command == PUBLISH && Fresh(blank, m.version) && ComesBack(Repaired, m, blank)
    ensures |m.topic| < 0x1_0000 && |Body(m)| < 0x1000_0000
  {
    BodyParts(m);
    SizesAgree(Repaired, m, blank);
    hide Body, ParsedBody;
  }

  lemma RepairedLengthRead(m: Message)
    requires |Body(m)| < 0x1000_0000
    ensures var field := LengthField(Repaired, |Body(m)|);
            |field| > 0 && ReadLength(Repaired, Serialized(Repaired, m)) == (|Body(m)|, |field|)
  {
    hide Body, DecodeBytes;
    LengthFieldRead(FirstByte(m), Body(m));
  }

  lemma LengthFieldRead(b0: byte, body: Data)
    requires |body| < 0x1000_0000
    ensures var field := LengthField(Repaired, |body|);
            |field| > 0 && ReadLength(Repaired, [b0] + field + body) == (|body|, |field|)
  {
    StrictKeepsAll(|body|);
    hide DecodeBytes, PackedBytes, Kept, LengthBytes, LengthField;
    var field := LengthField(Repaired, |body|);
    DecodePacked(|body|, |field|, body);
    assert ([b0] + field + body)[1..] == field + body;
  }

  lemma StrictKeepsAll(n: nat)
    requires n < 0x1000_0000
    ensures var field := LengthField(Repaired, n);
            |field| > 0 && field == PackedBytes(n, |field|) && Kept(n, |field|) == n
  {
    assert n % 0x1_0000_0000 == n;
    Capacities();
    hide PackedBytes, Kept, Capacity;
    KeptWhole(n, LengthBytes(Strict, n));
  }
}
