/** The message class of `message.h` and `message.cpp`: `serialize` and `parseMessage` as they update its fields. */
module NmqttMessages {
  import opened Bytes
  import opened PackedInt
  import opened Endian
  import opened Messages

  class NmqttMessage {
    var mqttVersion: Version
    var command: PacketType
    var duplicateMessage: bool
    var QoS: QoS
    var retainMessage: bool
    var packetID: uint16
    var messageLength: uint32
    var topic: Data
    var sessionPresent: bool
    var reasonCode: int
    var connect: ConnectOptions
    var parseGood: bool
    var payload: Data
    var globalEndian: Endianness

    function Value(): Message
      reads this
    {
      Message(mqttVersion, command, duplicateMessage, QoS, retainMessage, packetID, messageLength, topic,
              sessionPresent, reasonCode, connect, parseGood, payload)
    }

    constructor ()
      ensures Fresh(Value(), V4) && !parseGood
    {
      mqttVersion, QoS := V4, AtMostOnce;
      duplicateMessage, retainMessage, parseGood := false, false, false;
      topic, payload := [], [];
      globalEndian := LittleEndianOrder;
    }

    /** `serialize`. It leaves its additions in the payload member. */
    method Serialize() returns (output: Data)
      modifies this`payload, this`globalEndian
      ensures output == Serialized(AsWritten, old(Value()))
      ensures Value() == old(Value()).(payload := old(payload) + PayloadSuffix(old(Value())))
    {
      globalEndian := BigEndianOrder;
      var b0, varHeader := WriteParts();
      hide FirstByte, VariableHeader, PayloadSuffix, LengthField;
      output := Assemble(b0, varHeader);
    }

    /** The switch of `serialize`. */
    method WriteParts() returns (b0: byte, varHeader: Data)
      requires globalEndian == BigEndianOrder
      modifies this`payload
      ensures b0 == FirstByte(old(Value())) && varHeader == VariableHeader(old(Value()))
      ensures payload == old(payload) + PayloadSuffix(old(Value()))
    {
      b0, varHeader := Code(command), [];
      match command {
        case CONNECT =>
          varHeader := ConnectHeader();
          AppendConnectPayload();
        case CONNACK =>
          var connAckFlags: byte, connRes: byte := 0, 0;
          varHeader := varHeader + [connAckFlags];
          varHeader := varHeader + [connRes];
        case PUBLISH =>
          b0, varHeader := PublishHeader(b0);
        case SUBSCRIBE =>
          b0 := b0 + 2;
          varHeader := SubscribePacket();
        case UNSUBSCRIBE =>
          b0 := b0 + 2;
          varHeader := UnsubscribePacket();
        case _ =>
      }
    }

    /** The end of `serialize`: the length field and the four parts of the packet. */
    method Assemble(b0: byte, varHeader: Data) returns (output: Data)
      ensures output == [b0] + LengthField(AsWritten, |varHeader + payload|) + (varHeader + payload)
    {
      var msgLen: uint32 := (|varHeader| + |payload|) % 0x1_0000_0000;
      var lenBytes, msgLenPacked := WritePackedInt(msgLen, 0);
      PackedWordBytes(msgLen, lenBytes);
      output := [b0];
      output := output + LowBytes(msgLenPacked, lenBytes);
      output := output + varHeader;
      output := output + payload;
    }

    method PublishHeader(b: byte) returns (b0: byte, varHeader: Data)
      requires command == PUBLISH && b == Code(command) && globalEndian == BigEndianOrder
      ensures b0 == FirstByte(Value()) && varHeader == VariableHeader(Value())
    {
      b0 := b;
      if duplicateMessage { b0 := b0 + 8; }
      if QoS == AtLeastOnce { b0 := b0 + 2; }
      if QoS == ExactlyOnce { b0 := b0 + 4; }
      if retainMessage { b0 := b0 + 1; }
      varHeader := Dump16(|topic| % 0x1_0000);
      varHeader := varHeader + topic;
      if QoS != AtMostOnce {
        var pID := Dump16(packetID);
        varHeader := varHeader + pID;
      }
      if mqttVersion == V5 {
        varHeader := varHeader + [0];
      }
    }

    method SubscribePacket() returns (varHeader: Data)
      requires command == SUBSCRIBE && globalEndian == BigEndianOrder
      modifies this`payload
      ensures varHeader == VariableHeader(old(Value())) && payload == old(payload) + PayloadSuffix(old(Value()))
    {
      varHeader := Dump16(PACKET_ID);
      if mqttVersion == V5 {
        varHeader := varHeader + [0];
      }
      AppendString(topic);
      payload := payload + [0];
    }

    method UnsubscribePacket() returns (varHeader: Data)
      requires command == UNSUBSCRIBE && globalEndian == BigEndianOrder
      modifies this`payload
      ensures varHeader == VariableHeader(old(Value())) && payload == old(payload) + PayloadSuffix(old(Value()))
    {
      varHeader := Dump16(PACKET_ID);
      var pID := Dump16(packetID);
      varHeader := varHeader + pID;
      AppendTruncated(topic, topic);
    }

    /** `toGlobal` of a 16-bit number, and `append((char*) &n, 2)`. */
    method Dump16(n: uint16) returns (bs: Data)
      requires globalEndian == BigEndianOrder
      ensures bs == Prefix16(n)
    {
      DumpedPrefix(n);
      bs := LowBytes(ToGlobal16(n, HOST, globalEndian), 2);
    }

    /** `toGlobal` of a `size_t` assigned to 16 bits, and `append((char*) &n, 2)`. */
    method Dump64(n: nat) returns (bs: Data)
      requires globalEndian == BigEndianOrder
      ensures bs == TruncatedPrefix(n)
    {
      bs := LowBytes(ToGlobal64(n, HOST, globalEndian) % 0x1_0000, 2);
    }

    method ConnectHeader() returns (varHeader: Data)
      requires command == CONNECT && globalEndian == BigEndianOrder
      ensures varHeader == VariableHeader(Value())
    {
      varHeader := Dump16(4);
      varHeader := varHeader + [0x4D, 0x51, 0x54, 0x54];
      assert varHeader == PROTOCOL_NAME;
      var protVersion: byte := if mqttVersion == V5 then 5 else 4;
      varHeader := varHeader + [protVersion];
      var connectFlags := ConnectFlagByte();
      varHeader := varHeader + [connectFlags];
      assert varHeader == PROTOCOL_NAME + [protVersion, connectFlags];
      var keepAlive := Dump16(KEEP_ALIVE);
      varHeader := varHeader + keepAlive;
      if mqttVersion == V5 {
        ghost var before := varHeader;
        varHeader := varHeader + [0x05];
        varHeader := varHeader + [0x11];
        varHeader := varHeader + LowBytes(0x0A, 4);
        assert LowBytes(0x0A, 4) == [0x0A] + LowBytes(0, 3) && LowBytes(0, 2) == [0, 0];
        assert varHeader == before + SESSION_EXPIRY;
      }
    }

    method ConnectFlagByte() returns (connectFlags: byte)
      ensures connectFlags == ConnectFlags(connect)
    {
      connectFlags := 0;
      if connect.cleanSession { connectFlags := connectFlags + 0x02; }
      if connect.willFlag { connectFlags := connectFlags + 0x04; }
      if connect.willQos1 { connectFlags := connectFlags + 0x08; }
      if connect.willQos2 { connectFlags := connectFlags + 0x10; }
      if connect.willRetain { connectFlags := connectFlags + 0x20; }
      if connect.passwordFlag { connectFlags := connectFlags + 0x40; }
      if connect.usernameFlag { connectFlags := connectFlags + 0x80; }
    }

    method AppendConnectPayload()
      requires globalEndian == BigEndianOrder
      modifies this`payload
      ensures payload == old(payload) + ConnectPayload(connect)
    {
      hide TruncatedField, StringField;
      ghost var o := connect;
      AppendString(connect.clientId);
      ghost var suffix := StringField(o.clientId);
      if connect.willFlag {
        AppendTruncated(connect.willTopic, connect.willTopic);
        AppendTruncated(connect.will, connect.will);
        suffix := suffix + (TruncatedField(o.willTopic, o.willTopic) + TruncatedField(o.will, o.will));
      }
      if connect.usernameFlag {
        AppendTruncated(connect.willTopic, connect.username);
        suffix := suffix + TruncatedField(o.willTopic, o.username);
      }
      if connect.passwordFlag {
        AppendTruncated(connect.password, connect.password);
        suffix := suffix + TruncatedField(o.password, o.password);
      }
      assert payload == old(payload) + suffix;
    }

    /** A string of the payload, its length passed on in 16 bits. */
    method AppendString(s: Data)
      requires globalEndian == BigEndianOrder
      modifies this`payload
      ensures payload == old(payload) + StringField(s)
    {
      var len := Dump16(|s| % 0x1_0000);
      payload := payload + len;
      payload := payload + s;
    }

    /** A string of the payload behind the length of a string, passed on in 64 bits. */
    method AppendTruncated(prefixOf: Data, s: Data)
      requires globalEndian == BigEndianOrder
      modifies this`payload
      ensures payload == old(payload) + TruncatedField(prefixOf, s)
    {
      var len := Dump64(|prefixOf|);
      payload := payload + len;
      payload := payload + s;
    }

    /** `parseMessage`. */
    method ParseMessage(msg: Data) returns (outcome: Outcome)
      modifies this
      ensures (outcome, Value()) == Parsed(AsWritten, old(Value()), msg)
    {
      parseGood := false;
      var idx: nat := 0;
      if |msg| < 2 {
        return Returned(-1);
      }

      var qosCnt := ParseFlags(msg[0]);
      idx := idx + 1;

      var pInt := Widened(msg[1]);
      var pblen, length := ReadPackedInt(pInt);
      messageLength := length;
      idx := idx + pblen;
      if pblen + 1 + messageLength != |msg| {
        return Returned(-1);
      }

      outcome := ParseBranches(msg, idx, qosCnt);
    }

    /** The switch of `parseMessage`, and the end of the function. */
    method ParseBranches(msg: Data, start: nat, qosCnt: nat) returns (outcome: Outcome)
      requires 2 <= start <= |msg| && (qosCnt > 0 <==> HasPacketId(msg[0]))
      modifies this`sessionPresent, this`reasonCode, this`topic, this`packetID, this`payload, this`parseGood,
               this`connect, this`mqttVersion
      ensures (outcome, Value()) == ParsedBody(AsWritten, old(Value()), msg, start)
    {
      var idx := start;
      match command {
        case CONNECT =>
          outcome := ParseConnect(msg, idx);
          return;
        case CONNACK =>
          sessionPresent := At(msg, idx) != 0;
          idx := idx + 1;
          if idx > |msg| { return Undefined; }
          reasonCode := SignedChar(At(msg, idx));
          idx := idx + 1;
        case PUBLISH =>
          outcome := ParsePublish(msg, idx, qosCnt);
          return;
        case _ =>
      }
      parseGood := true;
      return Returned(1);
    }

    /** The first byte. `qosCnt` counts the QoS bits set. */
    method ParseFlags(byte0: byte) returns (qosCnt: nat)
      requires !parseGood
      modifies this`command, this`duplicateMessage, this`QoS, this`retainMessage
      ensures Value() == WithFlags(AsWritten, old(Value()), byte0) && (qosCnt > 0 <==> HasPacketId(byte0))
    {
      command := TypeOf(byte0);
      duplicateMessage := byte0 / 8 % 2 == 1;
      qosCnt := 0;
      if byte0 / 4 % 2 == 1 { QoS := AtLeastOnce; qosCnt := qosCnt + 1; }
      if byte0 / 2 % 2 == 1 { QoS := ExactlyOnce; qosCnt := qosCnt + 1; }
      if qosCnt > 1 { QoS := AtMostOnce; }
      retainMessage := byte0 % 2 == 1;
    }

    /** The CONNECT branch, and the end of the function. */
    method ParseConnect(msg: Data, start: nat) returns (outcome: Outcome)
      requires start <= |msg|
      modifies this`connect, this`mqttVersion, this`parseGood
      ensures (outcome, Value()) == ParsedConnect(old(Value()), msg, start)
    {
      var idx := start;
      var protName := Substr(msg, idx, 6);
      if protName != PROTOCOL_NAME {
        return Returned(-1);
      }
      idx := idx + 6;
      var protver := At(msg, idx);
      idx := idx + 1;
      if protver == 4 {
        mqttVersion := V4;
      } else if protver != 5 {
        return Returned(-1);
      }
      outcome := ParseConnectFlags(msg, idx);
    }

    method ParseConnectFlags(msg: Data, start: nat) returns (outcome: Outcome)
      requires start <= |msg|
      modifies this`connect, this`parseGood
      ensures (outcome, Value()) == ParsedConnectFlags(old(Value()), msg, start)
    {
      var idx := start;
      var connflags := At(msg, idx);
      idx := idx + 1;
      connect := WithConnectFlags(connect, connflags);
      if connflags % 2 == 1 {
        return Returned(-1);
      }
      if idx > |msg| { return Undefined; }
      connect := connect.(keepAlive := Wide16(At(msg, idx)));
      idx := idx + 2;
      outcome := ParseConnectPayload(msg, idx);
    }

    /** The strings of the payload in their order. */
    method ParseConnectPayload(msg: Data, start: nat) returns (outcome: Outcome)
      modifies this`connect, this`parseGood
      ensures (outcome, Value()) == ParsedClientId(old(Value()), msg, start)
    {
      var s, idx;
      outcome, s, idx := LoadString(msg, start);
      if !outcome.Returned? { return; }
      connect := connect.(clientId := s);
      if connect.willFlag {
        outcome, s, idx := LoadString(msg, idx);
        if !outcome.Returned? { return; }
        connect := connect.(willTopic := s);
        outcome, s, idx := LoadString(msg, idx);
        if !outcome.Returned? { return; }
        connect := connect.(will := s);
      }
      if connect.usernameFlag {
        outcome, s, idx := LoadString(msg, idx);
        if !outcome.Returned? { return; }
        connect := connect.(username := s);
      }
      if connect.passwordFlag {
        outcome, s, idx := LoadString(msg, idx);
        if !outcome.Returned? { return; }
        connect := connect.(password := s);
      }
      parseGood := true;
      return Returned(1);
    }

    /** `len = (uint16_t) msg[idx]` and `msg.substr(idx + 2, len)`. */
    method LoadString(msg: Data, idx: nat) returns (outcome: Outcome, s: Data, next: nat)
      ensures (outcome, s, next) == ParsedString(msg, idx)
    {
      if idx > |msg| { return Undefined, [], idx; }
      var len := Wide16(At(msg, idx));
      if idx + 2 > |msg| { return OutOfRange, [], idx; }
      return Returned(1), Substr(msg, idx + 2, len), idx + 2 + len;
    }

    /** The PUBLISH branch, and the end of the function. */
    method ParsePublish(msg: Data, start: nat, qosCnt: nat) returns (outcome: Outcome)
      requires command == PUBLISH && 2 <= start <= |msg| && (qosCnt > 0 <==> HasPacketId(msg[0]))
      modifies this`topic, this`packetID, this`payload, this`parseGood
      ensures (outcome, Value()) == ParsedBody(AsWritten, old(Value()), msg, start)
    {
      var idx := start;
      if idx + 1 > |msg| { return Undefined; }
      var strlen := Load16(msg, idx);
      idx := idx + 2;
      if idx > |msg| { return OutOfRange; }
      topic := Substr(msg, idx, strlen);
      idx := idx + strlen;
      outcome := ParseId(msg, idx, qosCnt);
    }

    /** The packet identifier and what follows it. */
    method ParseId(msg: Data, start: nat, qosCnt: nat) returns (outcome: Outcome)
      requires |msg| > 0 && (qosCnt > 0 <==> HasPacketId(msg[0]))
      modifies this`packetID, this`payload, this`parseGood
      ensures (outcome, Value()) == ParsedAfterTopic(AsWritten, old(Value()), msg, start)
    {
      var idx := start;
      if qosCnt > 0 {
        if idx + 1 > |msg| { return Undefined; }
        packetID := Load16(msg, idx);
        idx := idx + 2;
      }
      outcome := ParsePayload(msg, idx);
    }

    /** The properties, the payload, and the end of the function. */
    method ParsePayload(msg: Data, start: nat) returns (outcome: Outcome)
      modifies this`payload, this`parseGood
      ensures (outcome, Value()) == ParsedAfterId(AsWritten, old(Value()), msg, start)
    {
      var idx := start;
      if mqttVersion == V5 {
        if idx > |msg| { return Undefined; }
        var properties := At(msg, idx);  // anything but zero is reported and accepted
        idx := idx + 1;
      }
      if idx + 1 != |msg| {
        if idx > |msg| { return OutOfRange; }
        payload := msg[idx..];
      }
      parseGood := true;
      return Returned(1);
    }

    /** `toHost(*((uint16_t*) &msg[idx]), BB_BE)`. */
    method Load16(msg: Data, idx: nat) returns (n: uint16)
      requires idx + 1 <= |msg|
      ensures n == 0x100 * At(msg, idx) as int + At(msg, idx + 1) as int
    {
      var loaded: uint16 := At(msg, idx) as int + 0x100 * At(msg, idx + 1) as int;
      LoadedPrefix(At(msg, idx), At(msg, idx + 1));
      n := ToHost16(loaded, BigEndianOrder);
    }
  }
}
