/** When `parseMessage` returns. It leaves by the exception of `substr`, or reads past its input, on packets whose
    contents are shorter than they say; nobody catches the exception. */
module ParseReturns {
  import opened Bytes
  import opened Endian
  import opened Messages
  import opened PublishRoundTrip

  /** So many strings, each beginning where the one before ends as the CONNECT branch reads it, have room for their
      length bytes. The last one may go past the end. */
  predicate StringsFit(msg: Data, idx: nat, n: nat)
    decreases n
  {
    n == 0 || (idx + 2 <= |msg| && StringsFit(msg, idx + 2 + Wide16(At(msg, idx)), n - 1))
  }

  /** The strings that the flags of a CONNECT announce, the client identifier included. */
  function Strings(will: bool, username: bool, password: bool): nat {
    1 + (if will then 2 else 0) + (if username then 1 else 0) + if password then 1 else 0
  }

  function StringCount(flags: byte): nat {
    Strings(flags / 0x04 % 2 == 1, flags / 0x80 % 2 == 1, flags / 0x40 % 2 == 1)
  }

  /** Refused before its strings are read, or they fit. */
  predicate ConnectReturns(msg: Data, idx: nat)
    requires idx <= |msg|
  {
    || Substr(msg, idx, 6) != PROTOCOL_NAME
    || (At(msg, idx + 6) != 4 && At(msg, idx + 6) != 5)
    || At(msg, idx + 7) % 2 == 1
    || (idx + 8 <= |msg| && StringsFit(msg, idx + 10, StringCount(At(msg, idx + 7))))
  }

  predicate PublishReturns(version: Version, msg: Data, idx: nat)
    requires idx <= |msg| && |msg| > 0
  {
    && idx + 2 <= |msg|
    && var topic := 0x100 * At(msg, idx) as int + At(msg, idx + 1) as int;
       idx + 2 + topic + IdSize(HasPacketId(msg[0])) + (if version.V5? then 1 else 0) <= |msg|
  }

  predicate BodyReturns(version: Version, msg: Data, idx: nat)
    requires 2 <= idx <= |msg|
  {
    match TypeOf(msg[0])
    case CONNECT => ConnectReturns(msg, idx)
    case CONNACK => idx + 1 <= |msg|
    case PUBLISH => PublishReturns(version, msg, idx)
    case _ => true
  }

  /** In terms of the packet alone. */
  predicate Returns(v: Variant, version: Version, msg: Data) {
    |msg| < 2 ||
    var (length, count) := ReadLength(v, msg);
    (v.Repaired? && count == 5) || count + 1 + length != |msg| || BodyReturns(version, msg, count + 1)
  }

  /** The packets before the first one whose parse does not return. */
  function Parsable(v: Variant, version: Version, msgs: seq<Data>): (r: seq<Data>)
    ensures r <= msgs
    ensures forall m :: m in r ==> Returns(v, version, m)
    ensures |r| < |msgs| ==> !Returns(v, version, msgs[|r|])
  {
    if msgs == [] || !Returns(v, version, msgs[0]) then []
    else [msgs[0]] + Parsable(v, version, msgs[1..])
  }

  lemma ParsableFirst(v: Variant, version: Version, m: Data, more: seq<Data>)
    ensures Parsable(v, version, [m] + more) == if Returns(v, version, m) then [m] + Parsable(v, version, more) else []
  {
    assert ([m] + more)[1..] == more;
  }

  lemma AllParsable(v: Variant, version: Version, msgs: seq<Data>)
    ensures Parsable(v, version, msgs) == msgs <==> forall m :: m in msgs ==> Returns(v, version, m)
  {
    var r := Parsable(v, version, msgs);
    if |r| < |msgs| {
      assert msgs[|r|] in msgs;
    }
  }

  lemma PasswordReturns(m: Message, msg: Data, idx: nat)
    ensures ParsedPassword(m, msg, idx).0.Returned? <==> StringsFit(msg, idx, if m.connect.passwordFlag then 1 else 0)
  {
  }

  lemma UsernameReturns(m: Message, msg: Data, idx: nat)
    ensures ParsedUsername(m, msg, idx).0.Returned?
       <==> StringsFit(msg, idx, (if m.connect.usernameFlag then 1 else 0) + if m.connect.passwordFlag then 1 else 0)
  {
    hide ParsedPassword;
    if m.connect.usernameFlag {
      var (_, s, next) := ParsedString(msg, idx);
      PasswordReturns(m.(connect := m.connect.(username := s)), msg, next);
    } else {
      PasswordReturns(m, msg, idx);
    }
  }

  lemma WillReturns(m: Message, msg: Data, idx: nat)
    ensures ParsedWillTopic(m, msg, idx).0.Returned?
       <==> StringsFit(msg, idx, 2 + (if m.connect.usernameFlag then 1 else 0) + if m.connect.passwordFlag then 1 else 0)
  {
    hide ParsedUsername;
    var (_, topic, next) := ParsedString(msg, idx);
    var m1 := m.(connect := m.connect.(willTopic := topic));
    var (_, will, next1) := ParsedString(msg, next);
    UsernameReturns(m1.(connect := m1.connect.(will := will)), msg, next1);
  }

  lemma ClientIdReturns(m: Message, msg: Data, idx: nat)
    ensures ParsedClientId(m, msg, idx).0.Returned?
       <==> StringsFit(msg, idx, Strings(m.connect.willFlag, m.connect.usernameFlag, m.connect.passwordFlag))
  {
    hide ParsedUsername, ParsedWillTopic;
    var (_, s, next) := ParsedString(msg, idx);
    var m1 := m.(connect := m.connect.(clientId := s));
    if m.connect.willFlag {
      WillReturns(m1, msg, next);
    } else {
      UsernameReturns(m1, msg, next);
    }
  }

  lemma ConnectReturnsExactly(m: Message, msg: Data, idx: nat)
    requires idx <= |msg|
    ensures ParsedConnect(m, msg, idx).0.Returned? <==> ConnectReturns(msg, idx)
  {
    hide ParsedClientId, StringsFit;
    if Substr(msg, idx, 6) == PROTOCOL_NAME && (At(msg, idx + 6) == 4 || At(msg, idx + 6) == 5) {
      var m1 := if At(msg, idx + 6) == 4 then m.(version := V4) else m;
      var flags := At(msg, idx + 7);
      var m2 := m1.(connect := WithConnectFlags(m1.connect, flags));
      if flags % 2 == 0 && idx + 8 <= |msg| {
        ClientIdReturns(m2.(connect := m2.connect.(keepAlive := Wide16(At(msg, idx + 8)))), msg, idx + 10);
      }
    }
  }

  /** Exactly when a parse returns, whatever the fields of the object, its version apart. */
  lemma ReturnsExactly(v: Variant, m: Message, msg: Data)
    ensures Parsed(v, m, msg).0.Returned? <==> Returns(v, m.version, msg)
  {
    hide ReadLength, WithFlags, ParsedBody, BodyReturns;
    if |msg| >= 2 {
      var (length, count) := ReadLength(v, msg);
      var m1 := WithFlags(v, m, msg[0]).(messageLength := length);
      FlagsOnly(v, m, msg[0]);
      if count + 1 + length == |msg| {
        BodyReturnsExactly(v, m1, msg, count + 1);
      }
    }
  }

  lemma BodyReturnsExactly(v: Variant, m: Message, msg: Data, idx: nat)
    requires 2 <= idx <= |msg| && m.command == TypeOf(msg[0])
    ensures ParsedBody(v, m, msg, idx).0.Returned? <==> BodyReturns(m.version, msg, idx)
  {
    hide ParsedConnect, ConnectReturns;
    ConnectReturnsExactly(m, msg, idx);
  }

  // ---------------------------------------------------------------- packets that serialize makes

  lemma TypeRead(m: Message)
    ensures TypeOf(FirstByte(m)) == m.command
  {
  }

  /** Read by an object of the same version, or of 3.1.1. */
  predicate Understands(receiver: Version, m: Message) {
    receiver.V4? || m.version.V5?
  }

  /** Whatever the fields, the parse of a packet other than CONNECT returns. */
  lemma OtherBodyReturns(m: Message, receiver: Version, msg: Data, idx: nat)
    requires m.command != CONNECT && Understands(receiver, m)
    requires 2 <= idx <= |msg| && msg[0] == FirstByte(m) && msg[idx..] == Body(m)
    ensures BodyReturns(receiver, msg, idx)
  {
    TypeRead(m);
    hide FirstByte, TypeOf, PublishReturns;
    if m.command.PUBLISH? {
      PublishBodyReturns(m, receiver, msg, idx);
    }
  }

  lemma PublishBodyReturns(m: Message, receiver: Version, msg: Data, idx: nat)
    requires m.command == PUBLISH && Understands(receiver, m)
    requires 2 <= idx <= |msg| && msg[0] == FirstByte(m) && msg[idx..] == Body(m)
    ensures PublishReturns(receiver, msg, idx)
  {
    hide Body, AfterTopic, FirstByte, HasPacketId;
    BodyParts(m);
    FirstByteHasId(m);
    assert |msg| == idx + |Body(m)|;
    var prefix := Prefix16(|m.topic| % 0x1_0000);
    assert msg[idx] == msg[idx..][0] == prefix[0] && msg[idx + 1] == msg[idx..][1] == prefix[1];
  }

  lemma FirstByteHasId(m: Message)
    requires m.command == PUBLISH
    ensures HasPacketId(FirstByte(m)) <==> !m.qos.AtMostOnce?
  {
  }

  /** That of a CONNECT returns exactly if its strings fit as they are read, not as they were written. */
  lemma ConnectBodyReturns(m: Message, receiver: Version, msg: Data, idx: nat)
    requires m.command == CONNECT
    requires 2 <= idx <= |msg| && msg[0] == FirstByte(m) && msg[idx..] == Body(m)
    ensures BodyReturns(receiver, msg, idx)
       <==> StringsFit(msg, idx + 10, Strings(m.connect.willFlag, m.connect.usernameFlag, m.connect.passwordFlag))
  {
    TypeRead(m);
    ConnectStart(m);
    ConnectFlagsReadBack(m.connect);
    hide Body, FirstByte, ConnectFlags, StringsFit, WillQosRead;
    var body := msg[idx..];
    assert Substr(msg, idx, 6) == body[..6];
    assert msg[idx + 6] == body[6] && msg[idx + 7] == body[7];
  }

  lemma ConnectStart(m: Message)
    requires m.command == CONNECT
    ensures |Body(m)| >= 12 && Body(m)[..6] == PROTOCOL_NAME
    ensures (Body(m)[6] == 4 || Body(m)[6] == 5) && Body(m)[7] == ConnectFlags(m.connect)
  {
  }

  /** The condition, for a packet whose contents begin at `idx`. */
  predicate Parses(m: Message, msg: Data, idx: nat) {
    m.command == CONNECT ==>
      StringsFit(msg, idx + 10, Strings(m.connect.willFlag, m.connect.usernameFlag, m.connect.passwordFlag))
  }

  lemma SerializedBodyReturns(m: Message, receiver: Version, msg: Data, idx: nat)
    requires Understands(receiver, m)
    requires 2 <= idx <= |msg| && msg[0] == FirstByte(m) && msg[idx..] == Body(m)
    ensures BodyReturns(receiver, msg, idx) <==> Parses(m, msg, idx)
  {
    hide Body, FirstByte, BodyReturns, StringsFit, Strings, Understands;
    if m.command == CONNECT {
      ConnectBodyReturns(m, receiver, msg, idx);
    } else {
      OtherBodyReturns(m, receiver, msg, idx);
    }
  }

  /** The code, for packets whose length takes one byte. */
  lemma ShortReturns(m: Message)
    requires |Body(m)| < 128
    ensures Returns(AsWritten, V4, Serialized(AsWritten, m)) <==> Parses(m, Serialized(AsWritten, m), 2)
  {
    hide Body, FirstByte, LengthField, BodyReturns, Parses;
    var msg := Serialized(AsWritten, m);
    ShortFrame(AsWritten, m);
    assert msg[1] == |Body(m)| && msg[2..] == Body(m) && msg[0] == FirstByte(m);
    ShortLengthRead(msg);
    hide ReadLength;
    SerializedBodyReturns(m, V4, msg, 2);
  }

  /** The repaired code, for every length it writes. */
  lemma RepairedReturns(m: Message, receiver: Version)
    requires |Body(m)| < 0x1000_0000 && Understands(receiver, m)
    ensures var msg := Serialized(Repaired, m);
            Returns(Repaired, receiver, msg) <==> Parses(m, msg, 1 + |LengthField(Repaired, |Body(m)|)|)
  {
    hide Body, FirstByte, LengthField, BodyReturns, Parses, ReadLength;
    var msg := Serialized(Repaired, m);
    var k := |LengthField(Repaired, |Body(m)|)|;
    RepairedLengthRead(m);
    assert msg[0] == FirstByte(m) && msg[1 + k..] == Body(m);
    RepairedFieldShort(m);
    SerializedBodyReturns(m, receiver, msg, 1 + k);
  }

  lemma RepairedFieldShort(m: Message)
    ensures |LengthField(Repaired, |Body(m)|)| <= 4
  {
  }

  // ---------------------------------------------------------------- CONNECT

  /** Without a will and credentials the parse returns. */
  lemma PlainConnectParses(m: Message, msg: Data, idx: nat)
    requires m.command == CONNECT && !m.connect.willFlag && !m.connect.usernameFlag && !m.connect.passwordFlag
    requires idx <= |msg| && msg[idx..] == Body(m)
    ensures Parses(m, msg, idx)
  {
    ConnectStart(m);
    hide Body;
    assert |msg| == idx + |msg[idx..]|;
    OneStringFits(msg, idx + 10);
  }

  lemma OneStringFits(msg: Data, idx: nat)
    requires idx + 2 <= |msg|
    ensures StringsFit(msg, idx, 1)
  {
    assert StringsFit(msg, idx + 2 + Wide16(At(msg, idx)), 0);
  }

  /** With a will and nothing else, at the first `serialize`: the first byte of the client identifier is taken for the
      length of the will topic, and the parse returns exactly if the packet is longer than that. */
  lemma ConnectWithWillParses(m: Message, msg: Data, idx: nat)
    requires m.command == CONNECT && m.version.V4?
    requires m.connect.willFlag && !m.connect.usernameFlag && !m.connect.passwordFlag
    requires m.payload == [] && 0 < |m.connect.clientId| < 0x100
    requires idx <= |msg| && msg[idx..] == Body(m)
    ensures Parses(m, msg, idx) <==> idx + 16 + Wide16(m.connect.clientId[0]) <= |msg|
  {
    ConnectIdAt(m);
    hide Body;
    var body, w := msg[idx..], Wide16(m.connect.clientId[0]);
    assert |msg| == idx + |body|;
    assert msg[idx + 10] == body[10] == 0 && msg[idx + 12] == body[12] == m.connect.clientId[0];
    assert StringsFit(msg, idx + 10, 3) == StringsFit(msg, idx + 12, 2);
    assert StringsFit(msg, idx + 12, 2) == StringsFit(msg, idx + 14 + w, 1);
  }

  lemma ConnectIdAt(m: Message)
    requires m.command == CONNECT && m.version.V4? && m.connect.willFlag
    requires m.payload == [] && 0 < |m.connect.clientId| < 0x100
    ensures |Body(m)| >= 17 && Body(m)[10] == 0 && Body(m)[12] == m.connect.clientId[0]
  {
    hide ConnectFlags, TruncatedPrefix;
    var o := m.connect;
    var id := StringField(o.clientId);
    assert id == Prefix16(|o.clientId|) + o.clientId && id[0] == 0 && id[2] == o.clientId[0];
    var header := VariableHeader(m);
    assert |header| == 10;
    assert Body(m)[10] == PayloadSuffix(m)[0] && Body(m)[12] == PayloadSuffix(m)[2];
    assert PayloadSuffix(m)[0] == id[0] && PayloadSuffix(m)[2] == id[2];
  }
}
