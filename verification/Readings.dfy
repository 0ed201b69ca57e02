/** The packets that `serialize` makes, read byte by byte. */
module Readings {
  import opened Bytes
  import opened Endian
  import opened Messages

  /** Two bytes, the more significant one first. */
  function Pair(msg: Data, i: nat): nat
    requires i + 2 <= |msg|
  {
    0x100 * msg[i] as int + msg[i + 1] as int
  }

  /** These bytes stand at this place. */
  predicate Has(msg: Data, i: nat, part: Data) {
    i + |part| <= |msg| && msg[i..i + |part|] == part
  }

  /** A string of the payload: its length in two bytes, and the string. */
  predicate HasString(msg: Data, i: nat, s: Data) {
    i + 2 <= |msg| && Pair(msg, i) == |s| % 0x1_0000 && Has(msg, i + 2, s)
  }

  /** A string behind two zero bytes, as the code writes those whose length it passes on in 64 bits. */
  predicate HasUnsized(msg: Data, i: nat, s: Data) {
    Has(msg, i, [0, 0]) && Has(msg, i + 2, s)
  }

  /** A string that fits in memory. */
  predicate Fits(s: Data) {
    |s| < 0x1_0000_0000_0000
  }

  // ---------------------------------------------------------------- taking a packet apart

  lemma Take(msg: Data, i: nat, part: Data, rest: Data)
    requires i <= |msg| && msg[i..] == part + rest
    ensures Has(msg, i, part) && msg[i + |part|..] == rest && |msg| == i + |part| + |rest|
  {
    assert msg[i..][..|part|] == part && msg[i..][|part|..] == rest;
  }

  lemma TakeString(msg: Data, i: nat, s: Data, rest: Data)
    requires i <= |msg| && msg[i..] == StringField(s) + rest
    ensures HasString(msg, i, s) && msg[i + 2 + |s|..] == rest && |msg| == i + 2 + |s| + |rest|
  {
    var prefix := Prefix16(|s| % 0x1_0000);
    assert StringField(s) + rest == prefix + (s + rest);
    Take(msg, i, prefix, s + rest);
    Take(msg, i + 2, s, rest);
    assert msg[i] == msg[i..i + 2][0] && msg[i + 1] == msg[i..i + 2][1];
  }

  lemma TakeUnsized(msg: Data, i: nat, s: Data, of: Data, rest: Data)
    requires i <= |msg| && msg[i..] == TruncatedField(of, s) + rest && Fits(of)
    ensures HasUnsized(msg, i, s) && msg[i + 2 + |s|..] == rest && |msg| == i + 2 + |s| + |rest|
  {
    TruncatedPrefixWrong(|of|);
    assert TruncatedField(of, s) + rest == [0, 0] + (s + rest);
    Take(msg, i, [0, 0], s + rest);
    Take(msg, i + 2, s, rest);
  }

  lemma TakeLast(msg: Data, i: nat, part: Data)
    requires i <= |msg| && msg[i..] == part
    ensures Has(msg, i, part) && |msg| == i + |part|
  {
    assert part + [] == part;
    Take(msg, i, part, []);
  }

  /** The contents stand behind the first byte and a length field of at most four bytes. */
  lemma Contents(v: Variant, m: Message)
    ensures var msg, h := Serialized(v, m), |Serialized(v, m)| - |Body(m)|;
            1 <= h <= 5 && msg[0] == FirstByte(m) && msg[h..] == Body(m)
  {
    hide Body, FirstByte;
    assert Serialized(v, m) == ([FirstByte(m)] + LengthField(v, |Body(m)|)) + Body(m);
  }

  // ---------------------------------------------------------------- each packet

  function Properties(m: Message): Data {
    if m.version.V5? then [0] else []
  }

  lemma SubscribeParts(m: Message)
    requires m.command == SUBSCRIBE
    ensures FirstByte(m) == 0x82
    ensures Body(m) == [0x00, 0x0A] + (Properties(m) + (m.payload + (StringField(m.topic) + [0])))
  {
    hide StringField;
  }

  /** A SUBSCRIBE: 0x82; the identifier 10, no properties in version 5, what the payload member held, the topic filter
      behind its length, and options of zero. */
  predicate IsSubscribe(msg: Data, v5: bool, payload: Data, topic: Data) {
    var p := if v5 then 1 else 0;
    var h := |msg| - (5 + p + |payload| + |topic|);
    var i := h + 2 + p + |payload|;
    && 1 <= h <= 5 && msg[0] == 0x82
    && Has(msg, h, [0x00, 0x0A]) && (v5 ==> Has(msg, h + 2, [0x00]))
    && Has(msg, h + 2 + p, payload)
    && HasString(msg, i, topic) && Has(msg, i + 2 + |topic|, [0x00])
  }

  lemma SubscribeBytes(v: Variant, m: Message)
    requires m.command == SUBSCRIBE
    ensures IsSubscribe(Serialized(v, m), m.version.V5?, m.payload, m.topic)
  {
    Contents(v, m);
    SubscribeParts(m);
    hide Serialized, Body, StringField, FirstByte, IsSubscribe;
    SubscribeTaken(Serialized(v, m), |Serialized(v, m)| - |Body(m)|, m.version.V5?, m.payload, m.topic);
  }

  lemma SubscribeTaken(msg: Data, h: nat, v5: bool, payload: Data, topic: Data)
    requires 1 <= h <= 5 && h <= |msg| && msg[0] == 0x82
    requires msg[h..] == [0x00, 0x0A] + ((if v5 then [0] else []) + (payload + (StringField(topic) + [0])))
    ensures IsSubscribe(msg, v5, payload, topic)
  {
    hide StringField, Has, HasString;
    var p: Data := if v5 then [0] else [];
    Take(msg, h, [0x00, 0x0A], p + (payload + (StringField(topic) + [0])));
    Take(msg, h + 2, p, payload + (StringField(topic) + [0]));
    Take(msg, h + 2 + |p|, payload, StringField(topic) + [0]);
    TakeString(msg, h + 2 + |p| + |payload|, topic, [0]);
    TakeLast(msg, h + 4 + |p| + |payload| + |topic|, [0]);
    assert h == |msg| - (5 + |p| + |payload| + |topic|);
  }

  /** An UNSUBSCRIBE: 0xA2; two identifiers, what the payload member held, and the topic filter behind two zeros. */
  predicate IsUnsubscribe(msg: Data, packetId: uint16, payload: Data, topic: Data) {
    var h := |msg| - (6 + |payload| + |topic|);
    && 1 <= h <= 5 && msg[0] == 0xA2
    && Has(msg, h, [0x00, 0x0A]) && Pair(msg, h + 2) == packetId
    && Has(msg, h + 4, payload) && HasUnsized(msg, h + 4 + |payload|, topic)
  }

  lemma UnsubscribeParts(m: Message)
    requires m.command == UNSUBSCRIBE
    ensures FirstByte(m) == 0xA2
    ensures Body(m) == [0x00, 0x0A] + (Prefix16(m.packetId) + (m.payload + TruncatedField(m.topic, m.topic)))
  {
    hide TruncatedField;
  }

  lemma UnsubscribeBytes(v: Variant, m: Message)
    requires m.command == UNSUBSCRIBE && Fits(m.topic)
    ensures IsUnsubscribe(Serialized(v, m), m.packetId, m.payload, m.topic)
  {
    Contents(v, m);
    UnsubscribeParts(m);
    hide Serialized, Body, TruncatedField, FirstByte, IsUnsubscribe;
    UnsubscribeTaken(Serialized(v, m), |Serialized(v, m)| - |Body(m)|, m.packetId, m.payload, m.topic);
  }

  lemma UnsubscribeTaken(msg: Data, h: nat, packetId: uint16, payload: Data, topic: Data)
    requires 1 <= h <= 5 && h <= |msg| && msg[0] == 0xA2 && Fits(topic)
    requires msg[h..] == [0x00, 0x0A] + (Prefix16(packetId) + (payload + TruncatedField(topic, topic)))
    ensures IsUnsubscribe(msg, packetId, payload, topic)
  {
    hide TruncatedField, Has, HasUnsized;
    Take(msg, h, [0x00, 0x0A], Prefix16(packetId) + (payload + TruncatedField(topic, topic)));
    TakePair(msg, h + 2, packetId, payload + TruncatedField(topic, topic));
    Take(msg, h + 4, payload, TruncatedField(topic, topic));
    assert TruncatedField(topic, topic) + [] == TruncatedField(topic, topic);
    TakeUnsized(msg, h + 4 + |payload|, topic, topic, []);
    assert h == |msg| - (6 + |payload| + |topic|);
  }

  lemma TakePair(msg: Data, i: nat, n: uint16, rest: Data)
    requires i <= |msg| && msg[i..] == Prefix16(n) + rest
    ensures i + 2 <= |msg| && Pair(msg, i) == n && msg[i + 2..] == rest && |msg| == i + 2 + |rest|
  {
    Take(msg, i, Prefix16(n), rest);
    assert msg[i] == msg[i..i + 2][0] && msg[i + 1] == msg[i..i + 2][1];
  }

  /** A PUBLISH: type, DUP, QoS and RETAIN in the bits of the first byte; the topic behind its length, the identifier
      when there is one, no properties in version 5, the payload. */
  predicate IsPublish(msg: Data, m: Message) {
    var q, p := if m.qos.AtMostOnce? then 0 else 2, if m.version.V5? then 1 else 0;
    var h := |msg| - (2 + |m.topic| + q + p + |m.payload|);
    var i := h + 2 + |m.topic|;
    && 1 <= h <= 5
    && msg[0] / 0x10 == 3 && (msg[0] / 0x08 % 2 == 1 <==> m.duplicate) && (msg[0] % 2 == 1 <==> m.retain)
    && msg[0] / 0x02 % 4 == (match m.qos case AtMostOnce => 0 case AtLeastOnce => 1 case ExactlyOnce => 2)
    && HasString(msg, h, m.topic)
    && (!m.qos.AtMostOnce? ==> Pair(msg, i) == m.packetId)
    && (m.version.V5? ==> Has(msg, i + q, [0x00]))
    && Has(msg, i + q + p, m.payload)
  }

  lemma PublishParts(m: Message)
    requires m.command == PUBLISH
    ensures Body(m) == StringField(m.topic)
                       + ((if m.qos.AtMostOnce? then [] else Prefix16(m.packetId)) + (Properties(m) + m.payload))
  {
    hide StringField, Prefix16;
  }

  lemma PublishFirstByte(m: Message)
    requires m.command == PUBLISH
    ensures var b := FirstByte(m);
            && b / 0x10 == 3 && (b / 0x08 % 2 == 1 <==> m.duplicate) && (b % 2 == 1 <==> m.retain)
            && b / 0x02 % 4 == match m.qos case AtMostOnce => 0 case AtLeastOnce => 1 case ExactlyOnce => 2
  {
  }

  lemma PublishBytes(v: Variant, m: Message)
    requires m.command == PUBLISH
    ensures IsPublish(Serialized(v, m), m)
  {
    Contents(v, m);
    PublishParts(m);
    PublishFirstByte(m);
    hide Serialized, Body, StringField, FirstByte, IsPublish, Prefix16, Properties;
    PublishTaken(Serialized(v, m), |Serialized(v, m)| - |Body(m)|, m);
  }

  lemma PublishTaken(msg: Data, h: nat, m: Message)
    requires m.command == PUBLISH
    requires 1 <= h <= 5 && h <= |msg| && msg[0] == FirstByte(m)
    requires msg[h..] == StringField(m.topic)
                         + ((if m.qos.AtMostOnce? then [] else Prefix16(m.packetId)) + (Properties(m) + m.payload))
    ensures IsPublish(msg, m)
  {
    PublishFirstByte(m);
    hide StringField, FirstByte, Has, HasString, Prefix16, Pair, Properties;
    var id := if m.qos.AtMostOnce? then [] else Prefix16(m.packetId);
    TakeString(msg, h, m.topic, id + (Properties(m) + m.payload));
    PublishTail(msg, h + 2 + |m.topic|, m);
    var q, p := if m.qos.AtMostOnce? then 0 else 2, if m.version.V5? then 1 else 0;
    assert h == |msg| - (2 + |m.topic| + q + p + |m.payload|);
  }

  lemma PublishTail(msg: Data, i: nat, m: Message)
    requires i <= |msg|
    requires msg[i..] == (if m.qos.AtMostOnce? then [] else Prefix16(m.packetId)) + (Properties(m) + m.payload)
    ensures var q, p := if m.qos.AtMostOnce? then 0 else 2, if m.version.V5? then 1 else 0;
            && |msg| == i + q + p + |m.payload|
            && (!m.qos.AtMostOnce? ==> Pair(msg, i) == m.packetId)
            && (m.version.V5? ==> Has(msg, i + q, [0x00])) && Has(msg, i + q + p, m.payload)
  {
    hide Has, Prefix16, Pair;
    var id := if m.qos.AtMostOnce? then [] else Prefix16(m.packetId);
    if m.qos.AtMostOnce? {
      assert id + (Properties(m) + m.payload) == Properties(m) + m.payload;
    } else {
      TakePair(msg, i, m.packetId, Properties(m) + m.payload);
    }
    Take(msg, i + |id|, Properties(m), m.payload);
    TakeLast(msg, i + |id| + |Properties(m)|, m.payload);
  }

  /** A CONNACK: session not present, accepted. */
  lemma ConnackBytes(v: Variant, m: Message)
    requires m.command == CONNACK
    ensures var msg := Serialized(v, m);
            var h := |msg| - (2 + |m.payload|);
            1 <= h <= 5 && msg[0] == 0x20 && Has(msg, h, [0x00, 0x00]) && Has(msg, h + 2, m.payload)
  {
    Contents(v, m);
    assert Body(m) == [0, 0] + m.payload;
    assert FirstByte(m) == 0x20;
    hide Serialized, Body, FirstByte;
    var msg := Serialized(v, m);
    Take(msg, |msg| - |Body(m)|, [0, 0], m.payload);
    TakeLast(msg, |msg| - |m.payload|, m.payload);
  }

  /** The other packets are a first byte, whose lower half is zero, and what the payload member holds. */
  lemma BareBytes(v: Variant, m: Message)
    requires !(m.command.CONNECT? || m.command.CONNACK? || m.command.PUBLISH? || m.command.SUBSCRIBE?
               || m.command.UNSUBSCRIBE?)
    ensures var msg := Serialized(v, m);
            var h := |msg| - |m.payload|;
            && 1 <= h <= 5 && Has(msg, h, m.payload)
            && (m.command.RESERVED? ==> msg[0] == 0x00) && (m.command.PUBACK? ==> msg[0] == 0x40)
            && (m.command.PUBREC? ==> msg[0] == 0x50) && (m.command.PUBREL? ==> msg[0] == 0x60)
            && (m.command.PUBCOMP? ==> msg[0] == 0x70) && (m.command.SUBACK? ==> msg[0] == 0x90)
            && (m.command.UNSUBACK? ==> msg[0] == 0xB0) && (m.command.PINGREQ? ==> msg[0] == 0xC0)
            && (m.command.PINGRESP? ==> msg[0] == 0xD0) && (m.command.DISCONNECT? ==> msg[0] == 0xE0)
            && (m.command.AUTH? ==> msg[0] == 0xF0)
  {
    Contents(v, m);
    assert Body(m) == m.payload;
    hide Serialized, Body;
    var msg := Serialized(v, m);
    TakeLast(msg, |msg| - |Body(m)|, m.payload);
  }

  /** The ping of the keep-alive. */
  lemma PingBytes(v: Variant, m: Message)
    requires m.command == PINGREQ && m.payload == []
    ensures Serialized(v, m) == [0xC0, 0x00]
  {
  }

  // ---------------------------------------------------------------- CONNECT

  /** How many bytes the will, the user name and the password take. */
  function OptionsSize(o: ConnectOptions): nat {
    (if o.willFlag then 4 + |o.willTopic| + |o.will| else 0) + (if o.usernameFlag then 2 + |o.username| else 0)
    + if o.passwordFlag then 2 + |o.password| else 0
  }

  predicate OptionsFit(o: ConnectOptions) {
    Fits(o.willTopic) && Fits(o.will) && Fits(o.password)
  }

  /** The optional strings in their order, from `i` to the end. */
  predicate HasOptions(msg: Data, i: nat, o: ConnectOptions) {
    var j := i + if o.willFlag then 4 + |o.willTopic| + |o.will| else 0;
    var k := j + if o.usernameFlag then 2 + |o.username| else 0;
    && |msg| == i + OptionsSize(o)
    && (o.willFlag ==> HasUnsized(msg, i, o.willTopic) && HasUnsized(msg, i + 2 + |o.willTopic|, o.will))
    && (o.usernameFlag ==> HasUnsized(msg, j, o.username))
    && (o.passwordFlag ==> HasUnsized(msg, k, o.password))
  }

  /** A CONNECT: 0x10; "MQTT" behind its length, the level, the flags bit by bit, a keep-alive of 60 and in version 5 a
      session expiry of 10 in host order; what the payload member held; the client identifier behind its length, and
      the optional strings. */
  predicate IsConnect(msg: Data, v5: bool, o: ConnectOptions, payload: Data) {
    var p := if v5 then 6 else 0;
    var h := |msg| - (12 + p + |payload| + |o.clientId| + OptionsSize(o));
    var i := h + 10 + p + |payload|;
    && 1 <= h <= 5 && msg[0] == 0x10
    && Has(msg, h, [0x00, 0x04, 0x4D, 0x51, 0x54, 0x54]) && msg[h + 6] == (if v5 then 5 else 4)
    && HasFlags(msg[h + 7], o)
    && Pair(msg, h + 8) == 60 && (v5 ==> Has(msg, h + 10, [0x05, 0x11, 0x0A, 0x00, 0x00, 0x00]))
    && Has(msg, h + 10 + p, payload) && HasString(msg, i, o.clientId)
    && HasOptions(msg, i + 2 + |o.clientId|, o)
  }

  predicate HasFlags(f: byte, o: ConnectOptions) {
    && (f / 0x80 % 2 == 1 <==> o.usernameFlag) && (f / 0x40 % 2 == 1 <==> o.passwordFlag)
    && (f / 0x20 % 2 == 1 <==> o.willRetain) && (f / 0x10 % 2 == 1 <==> o.willQos2)
    && (f / 0x08 % 2 == 1 <==> o.willQos1) && (f / 0x04 % 2 == 1 <==> o.willFlag)
    && (f / 0x02 % 2 == 1 <==> o.cleanSession) && f % 2 == 0
  }

  function WillPart(o: ConnectOptions): Data {
    if o.willFlag then TruncatedField(o.willTopic, o.willTopic) + TruncatedField(o.will, o.will) else []
  }

  function UsernamePart(o: ConnectOptions): Data {
    if o.usernameFlag then TruncatedField(o.willTopic, o.username) else []
  }

  function PasswordPart(o: ConnectOptions): Data {
    if o.passwordFlag then TruncatedField(o.password, o.password) else []
  }

  function ExpiryPart(v5: bool): Data {
    if v5 then [0x05, 0x11, 0x0A, 0x00, 0x00, 0x00] else []
  }

  lemma ConnectParts(m: Message)
    requires m.command == CONNECT
    ensures FirstByte(m) == 0x10
    ensures var o := m.connect;
            Body(m) == [0x00, 0x04, 0x4D, 0x51, 0x54, 0x54]
                       + ([if m.version.V5? then 5 else 4, ConnectFlags(o)]
                          + ([0, 60] + (ExpiryPart(m.version.V5?) + (m.payload + (StringField(o.clientId)
                          + (WillPart(o) + (UsernamePart(o) + PasswordPart(o))))))))
  {
    hide ConnectFlags, StringField, TruncatedField;
    var o := m.connect;
    assert VariableHeader(m) == [0x00, 0x04, 0x4D, 0x51, 0x54, 0x54]
                                + ([if m.version.V5? then 5 else 4, ConnectFlags(o)]
                                   + ([0, 60] + ExpiryPart(m.version.V5?)));
    assert PayloadSuffix(m) == StringField(o.clientId) + (WillPart(o) + (UsernamePart(o) + PasswordPart(o)));
  }

  lemma TakeOptions(msg: Data, i: nat, o: ConnectOptions)
    requires i <= |msg| && OptionsFit(o)
    requires msg[i..] == WillPart(o) + (UsernamePart(o) + PasswordPart(o))
    ensures HasOptions(msg, i, o)
  {
    hide TruncatedField, HasUnsized;
    var rest := UsernamePart(o) + PasswordPart(o);
    var j := i;
    if o.willFlag {
      assert WillPart(o) + rest
          == TruncatedField(o.willTopic, o.willTopic) + (TruncatedField(o.will, o.will) + rest);
      TakeUnsized(msg, i, o.willTopic, o.willTopic, TruncatedField(o.will, o.will) + rest);
      TakeUnsized(msg, i + 2 + |o.willTopic|, o.will, o.will, rest);
      j := i + 4 + |o.willTopic| + |o.will|;
    } else {
      assert WillPart(o) + rest == rest;
    }
    TakeCredentials(msg, j, o);
  }

  lemma TakeCredentials(msg: Data, j: nat, o: ConnectOptions)
    requires j <= |msg| && OptionsFit(o) && msg[j..] == UsernamePart(o) + PasswordPart(o)
    ensures var k := j + if o.usernameFlag then 2 + |o.username| else 0;
            && |msg| == k + (if o.passwordFlag then 2 + |o.password| else 0)
            && (o.usernameFlag ==> HasUnsized(msg, j, o.username))
            && (o.passwordFlag ==> HasUnsized(msg, k, o.password))
  {
    hide TruncatedField, HasUnsized;
    var k := j;
    if o.usernameFlag {
      TakeUnsized(msg, j, o.username, o.willTopic, PasswordPart(o));
      k := j + 2 + |o.username|;
    } else {
      assert UsernamePart(o) + PasswordPart(o) == PasswordPart(o);
    }
    assert PasswordPart(o) + [] == PasswordPart(o);
    if o.passwordFlag {
      TakeUnsized(msg, k, o.password, o.password, []);
    }
  }

  lemma ConnectBytes(v: Variant, m: Message)
    requires m.command == CONNECT && OptionsFit(m.connect)
    ensures IsConnect(Serialized(v, m), m.version.V5?, m.connect, m.payload)
  {
    Contents(v, m);
    ConnectParts(m);
    ConnectFlagsReadBack(m.connect);
    assert HasFlags(ConnectFlags(m.connect), m.connect);
    hide Serialized, Body, FirstByte, IsConnect, HasFlags, ConnectFlags, StringField, WillPart, UsernamePart,
         PasswordPart, OptionsFit;
    ConnectTaken(Serialized(v, m), |Serialized(v, m)| - |Body(m)|, m.version.V5?, ConnectFlags(m.connect), m.connect,
                 m.payload);
  }

  lemma ConnectTaken(msg: Data, h: nat, v5: bool, flags: byte, o: ConnectOptions, payload: Data)
    requires 1 <= h <= 5 && h <= |msg| && msg[0] == 0x10 && HasFlags(flags, o) && OptionsFit(o)
    requires msg[h..] == [0x00, 0x04, 0x4D, 0x51, 0x54, 0x54]
                         + ([if v5 then 5 else 4, flags]
                            + ([0, 60] + (ExpiryPart(v5) + (payload + (StringField(o.clientId)
                            + (WillPart(o) + (UsernamePart(o) + PasswordPart(o))))))))
    ensures IsConnect(msg, v5, o, payload)
  {
    hide StringField, WillPart, UsernamePart, PasswordPart, Has, HasString, HasOptions, HasFlags, OptionsFit;
    var payloads := payload + (StringField(o.clientId) + (WillPart(o) + (UsernamePart(o) + PasswordPart(o))));
    var level: byte := if v5 then 5 else 4;
    var e := ExpiryPart(v5);
    Take(msg, h, [0x00, 0x04, 0x4D, 0x51, 0x54, 0x54], [level, flags] + ([0, 60] + (e + payloads)));
    assert msg[h + 6] == msg[h + 6..][0] == level && msg[h + 7] == msg[h + 6..][1] == flags;
    Take(msg, h + 6, [level, flags], [0, 60] + (e + payloads));
    assert Prefix16(60) == [0, 60];
    TakePair(msg, h + 8, 60, e + payloads);
    ConnectTail(msg, h + 10, v5, o, payload);
    hide Pair;
    var p := if v5 then 6 else 0;
    assert h == |msg| - (12 + p + |payload| + |o.clientId| + OptionsSize(o));
  }

  lemma ConnectTail(msg: Data, i: nat, v5: bool, o: ConnectOptions, payload: Data)
    requires i <= |msg| && OptionsFit(o)
    requires msg[i..] == ExpiryPart(v5) + (payload + (StringField(o.clientId)
                         + (WillPart(o) + (UsernamePart(o) + PasswordPart(o)))))
    ensures var p := if v5 then 6 else 0;
            && |msg| == i + 2 + p + |payload| + |o.clientId| + OptionsSize(o)
            && (v5 ==> Has(msg, i, [0x05, 0x11, 0x0A, 0x00, 0x00, 0x00]))
            && Has(msg, i + p, payload) && HasString(msg, i + p + |payload|, o.clientId)
            && HasOptions(msg, i + p + |payload| + 2 + |o.clientId|, o)
  {
    hide StringField, WillPart, UsernamePart, PasswordPart, Has, HasString, HasOptions, OptionsFit;
    var options := WillPart(o) + (UsernamePart(o) + PasswordPart(o));
    var e := ExpiryPart(v5);
    Take(msg, i, e, payload + (StringField(o.clientId) + options));
    Take(msg, i + |e|, payload, StringField(o.clientId) + options);
    TakeString(msg, i + |e| + |payload|, o.clientId, options);
    TakeOptions(msg, i + |e| + |payload| + 2 + |o.clientId|, o);
    OptionsEnd(msg, i + |e| + |payload| + 2 + |o.clientId|, o);
  }

  lemma OptionsEnd(msg: Data, i: nat, o: ConnectOptions)
    requires HasOptions(msg, i, o)
    ensures |msg| == i + OptionsSize(o)
  {
  }
}
