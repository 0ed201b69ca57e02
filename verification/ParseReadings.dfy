/** What a parse by the code leaves in the object, byte by byte of its input. */
module ParseReadings {
  import opened Bytes
  import opened Messages
  import opened PublishRoundTrip
  import opened ParseReturns
  import Readings

  /** A packet of the length that its one length byte says. */
  predicate Whole(msg: Data) {
    |msg| >= 2 && msg[1] < 0x80 && |msg| == 2 + msg[1] as int
  }

  /** The fields that every parse takes from the first two bytes. A length byte that continues makes a length that no
      small packet has. */
  function Headed(m: Message, msg: Data, command: PacketType): Message
    requires |msg| >= 2
  {
    var two, one := msg[0] / 0x04 % 2 == 1, msg[0] / 0x02 % 2 == 1;
    m.(command := command,
       messageLength := if msg[1] < 0x80 then msg[1] else 0x0FFF_FF00 + msg[1] as int, parseGood := false,
       duplicate := msg[0] / 0x08 % 2 == 1, retain := msg[0] % 2 == 1,
       qos := if two && one then AtMostOnce else if two then AtLeastOnce else if one then ExactlyOnce else m.qos)
  }

  lemma WholeParsed(m: Message, msg: Data, command: PacketType)
    requires Whole(msg) && TypeOf(msg[0]) == command
    ensures Parsed(AsWritten, m, msg) == ParsedBody(AsWritten, Headed(m, msg, command), msg, 2)
  {
    hide ParsedBody;
    ShortLengthRead(msg);
    hide ReadLength;
  }

  /** A packet of under two bytes, or of another length than its length byte says, is refused. */
  lemma WrongLengthRefused(m: Message, msg: Data)
    requires |msg| < 0x0FFF_FF80 && !Whole(msg)
    ensures Parsed(AsWritten, m, msg)
         == (Returned(-1), if |msg| < 2 then m.(parseGood := false) else Headed(m, msg, TypeOf(msg[0])))
  {
    hide ParsedBody;
    if |msg| >= 2 {
      WidenedLength(msg[1]);
    }
  }

  /** CONNACK: session present is the third byte, the reason code the fourth one, as a signed char. */
  lemma ConnackRead(m: Message, msg: Data)
    requires Whole(msg) && msg[0] / 0x10 == 2 && |msg| >= 3
    ensures var b := if |msg| == 3 then 0 else msg[3] as int;
            Parsed(AsWritten, m, msg)
            == (Returned(1), Headed(m, msg, CONNACK).(sessionPresent := msg[2] != 0,
                                                      reasonCode := if b < 0x80 then b else b - 0x100,
                                                      parseGood := true))
  {
    WholeParsed(m, msg, CONNACK);
  }

  /** In the usual form, for every object. */
  lemma ConnackOf(m: Message, a: byte, b: byte)
    ensures var (outcome, n) := Parsed(AsWritten, m, [0x20, 0x02, a, b]);
            && outcome == Returned(1) && n.parseGood && n.command == CONNACK
            && (n.sessionPresent <==> a != 0) && n.reasonCode == (if b < 0x80 then b as int else b - 0x100)
  {
    ConnackRead(m, [0x20, 0x02, a, b]);
  }

  /** PUBLISH: the topic behind its length, the identifier if a QoS bit is set, a byte of properties in version 5, and
      the rest as the payload, unless that is a single byte. */
  lemma PublishRead(m: Message, msg: Data)
    requires Whole(msg) && msg[0] / 0x10 == 3 && Parsed(AsWritten, m, msg).0 == Returned(1)
    ensures 4 <= |msg|
    ensures var n, t := Parsed(AsWritten, m, msg).1, Readings.Pair(msg, 2);
            var q := if msg[0] / 0x04 % 2 == 1 || msg[0] / 0x02 % 2 == 1 then 2 else 0;
            var j := 4 + t + q + if m.version.V5? then 1 else 0;
            && j <= |msg|
            && n == Headed(m, msg, PUBLISH).(topic := msg[4..4 + t],
                                             packetId := if q == 2 then Readings.Pair(msg, 4 + t) else m.packetId,
                                             payload := if j + 1 == |msg| then m.payload else msg[j..],
                                             parseGood := true)
  {
    WholeParsed(m, msg, PUBLISH);
    ReturnsExactly(AsWritten, m, msg);
    ShortLengthRead(msg);
    hide ReadLength, Parsed;
  }

  /** The packets without a branch of their own: the first two bytes, and success. */
  lemma OtherRead(m: Message, msg: Data, command: PacketType)
    requires Whole(msg) && TypeOf(msg[0]) == command
    requires !(command.CONNECT? || command.CONNACK? || command.PUBLISH?)
    ensures Parsed(AsWritten, m, msg) == (Returned(1), Headed(m, msg, command).(parseGood := true))
  {
    WholeParsed(m, msg, command);
  }

  // ---------------------------------------------------------------- CONNECT

  /** The number that the code takes for the length of a string: the first of its two length bytes, sign-extended to 16
      bits. */
  function Length(msg: Data, i: nat): nat
    requires i < |msg|
  {
    if msg[i] < 0x80 then msg[i] else 0xFF00 + msg[i] as int
  }

  /** Where the string behind such a length ends, or would end. */
  function End(msg: Data, i: nat): nat
    requires i < |msg|
  {
    i + 2 + Length(msg, i)
  }

  /** The string, as far as the input goes. */
  function Text(msg: Data, i: nat): Data
    requires i + 2 <= |msg|
  {
    if End(msg, i) <= |msg| then msg[i + 2..End(msg, i)] else msg[i + 2..]
  }

  lemma StringRead(msg: Data, i: nat)
    requires ParsedString(msg, i).0.Returned?
    ensures i + 2 <= |msg| && ParsedString(msg, i) == (Returned(1), Text(msg, i), End(msg, i))
  {
  }

  /** The options after the flags, the keep-alive and the client identifier. */
  function ConnectHeaded(m: Message, msg: Data): Message
    requires Whole(msg) && |msg| >= 14
  {
    var f := msg[9];
    Headed(m, msg, CONNECT).(
      version := if msg[8] == 4 then V4 else m.version,
      connect := m.connect.(usernameFlag := f / 0x80 % 2 == 1, passwordFlag := f / 0x40 % 2 == 1,
                            willRetain := f / 0x20 % 2 == 1, willQos := f / 0x08 % 2, willFlag := f / 0x04 % 2 == 1,
                            cleanSession := f / 0x02 % 2 == 1,
                            keepAlive := if msg[10] < 0x80 then msg[10] else 0xFF00 + msg[10] as int,
                            clientId := Text(msg, 12)))
  }

  /** What a CONNECT that is accepted has set when it comes to the optional strings. */
  lemma ConnectAccepted(m: Message, msg: Data)
    requires Whole(msg) && msg[0] / 0x10 == 1 && Parsed(AsWritten, m, msg).0 == Returned(1)
    ensures |msg| >= 14
    ensures Parsed(AsWritten, m, msg) == AfterClientId(ConnectHeaded(m, msg), msg, End(msg, 12))
  {
    WholeParsed(m, msg, CONNECT);
    hide Parsed;
    WillQosBit(msg[9]);
    hide ParsedWillTopic, ParsedUsername, WillQosRead;
    StringRead(msg, 12);
  }

  function AfterClientId(m: Message, msg: Data, i: nat): (Outcome, Message) {
    if m.connect.willFlag then ParsedWillTopic(m, msg, i) else ParsedUsername(m, msg, i)
  }

  /** What follows the client identifier: the will topic and the will if announced, the user name if announced, the
      password if announced, each where the one before ends. */
  predicate OptionsRead(o: ConnectOptions, msg: Data, i: nat, r: ConnectOptions) {
    if o.willFlag then
      && i + 2 <= |msg| && End(msg, i) + 2 <= |msg|
      && CredentialsRead(o.(willTopic := Text(msg, i), will := Text(msg, End(msg, i))), msg, End(msg, End(msg, i)), r)
    else CredentialsRead(o, msg, i, r)
  }

  predicate CredentialsRead(o: ConnectOptions, msg: Data, i: nat, r: ConnectOptions) {
    if o.usernameFlag then i + 2 <= |msg| && PasswordRead(o.(username := Text(msg, i)), msg, End(msg, i), r)
    else PasswordRead(o, msg, i, r)
  }

  predicate PasswordRead(o: ConnectOptions, msg: Data, i: nat, r: ConnectOptions) {
    if o.passwordFlag then i + 2 <= |msg| && r == o.(password := Text(msg, i)) else r == o
  }

  lemma PasswordIsRead(m: Message, msg: Data, i: nat)
    requires ParsedPassword(m, msg, i).0.Returned?
    ensures var (outcome, n) := ParsedPassword(m, msg, i);
            outcome == Returned(1) && PasswordRead(m.connect, msg, i, n.connect)
            && n == m.(connect := n.connect, parseGood := true)
  {
    if m.connect.passwordFlag {
      StringRead(msg, i);
    }
  }

  lemma UsernameIsRead(m: Message, msg: Data, i: nat)
    requires ParsedUsername(m, msg, i).0.Returned?
    ensures var (outcome, n) := ParsedUsername(m, msg, i);
            outcome == Returned(1) && CredentialsRead(m.connect, msg, i, n.connect)
            && n == m.(connect := n.connect, parseGood := true)
  {
    hide ParsedPassword, PasswordRead;
    if m.connect.usernameFlag {
      StringRead(msg, i);
      PasswordIsRead(m.(connect := m.connect.(username := Text(msg, i))), msg, End(msg, i));
    } else {
      PasswordIsRead(m, msg, i);
    }
  }

  lemma WillIsRead(m: Message, msg: Data, i: nat)
    requires AfterClientId(m, msg, i).0.Returned?
    ensures var (outcome, n) := AfterClientId(m, msg, i);
            outcome == Returned(1) && OptionsRead(m.connect, msg, i, n.connect)
            && n == m.(connect := n.connect, parseGood := true)
  {
    hide ParsedUsername, CredentialsRead;
    if m.connect.willFlag {
      StringRead(msg, i);
      var m1 := m.(connect := m.connect.(willTopic := Text(msg, i)));
      StringRead(msg, End(msg, i));
      var k := End(msg, i);
      UsernameIsRead(m1.(connect := m1.connect.(will := Text(msg, k))), msg, End(msg, k));
    } else {
      UsernameIsRead(m, msg, i);
    }
  }

  /** So all the fields of a CONNECT that is accepted. */
  lemma ConnectRead(m: Message, msg: Data)
    requires Whole(msg) && msg[0] / 0x10 == 1 && Parsed(AsWritten, m, msg).0 == Returned(1)
    ensures var n := Parsed(AsWritten, m, msg).1;
            && |msg| >= 14 && n == ConnectHeaded(m, msg).(connect := n.connect, parseGood := true)
            && OptionsRead(ConnectHeaded(m, msg).connect, msg, End(msg, 12), n.connect)
  {
    hide Parsed, ConnectHeaded, AfterClientId, OptionsRead;
    ConnectAccepted(m, msg);
    WillIsRead(ConnectHeaded(m, msg), msg, End(msg, 12));
  }

  /** The contents of a CONNECT begin with the protocol name, a level of 4 or 5 and flags whose lowest bit is clear. */
  predicate Acceptable(msg: Data, idx: nat) {
    && idx + 8 <= |msg| && msg[idx..idx + 6] == [0x00, 0x04, 0x4D, 0x51, 0x54, 0x54]
    && (msg[idx + 6] == 4 || msg[idx + 6] == 5) && msg[idx + 7] % 2 == 0
  }

  /** One that returns is accepted exactly for those, and otherwise refused. */
  lemma ConnectAcceptedExactly(m: Message, msg: Data)
    requires Whole(msg) && msg[0] / 0x10 == 1 && Parsed(AsWritten, m, msg).0.Returned?
    ensures Parsed(AsWritten, m, msg).0 == Returned(if Acceptable(msg, 2) then 1 else -1)
  {
    WholeParsed(m, msg, CONNECT);
    hide Parsed, ParsedConnect, Headed, Acceptable;
    ConnectCode(Headed(m, msg, CONNECT), msg, 2);
  }

  lemma ConnectCode(m: Message, msg: Data, idx: nat)
    requires idx <= |msg| && ParsedConnect(m, msg, idx).0.Returned?
    ensures ParsedConnect(m, msg, idx).0 == Returned(if Acceptable(msg, idx) then 1 else -1)
  {
    hide ParsedConnectFlags;
    if Substr(msg, idx, 6) == PROTOCOL_NAME {
      assert idx + 6 <= |msg|;
      if At(msg, idx + 6) == 4 {
        FlagsCode(m.(version := V4), msg, idx + 7);
      } else if At(msg, idx + 6) == 5 {
        FlagsCode(m, msg, idx + 7);
      }
    }
  }

  lemma FlagsCode(m: Message, msg: Data, idx: nat)
    requires idx <= |msg| && ParsedConnectFlags(m, msg, idx).0.Returned?
    ensures idx < |msg| && ParsedConnectFlags(m, msg, idx).0 == Returned(if msg[idx] % 2 == 0 then 1 else -1)
  {
    hide ParsedClientId;
    var flags := At(msg, idx);
    var m1 := m.(connect := WithConnectFlags(m.connect, flags));
    if flags % 2 == 0 && idx + 1 <= |msg| {
      ClientIdCode(m1.(connect := m1.connect.(keepAlive := Wide16(At(msg, idx + 1)))), msg, idx + 3);
    }
  }

  lemma ClientIdCode(m: Message, msg: Data, idx: nat)
    requires ParsedClientId(m, msg, idx).0.Returned?
    ensures ParsedClientId(m, msg, idx).0 == Returned(1) && idx + 2 <= |msg|
  {
    StringRead(msg, idx);
    hide ParsedWillTopic, ParsedUsername;
    var m1 := m.(connect := m.connect.(clientId := Text(msg, idx)));
    WillIsRead(m1, msg, End(msg, idx));
  }

  /** What a CONNECT that is refused leaves: nothing when its name or level is wrong, and the version and the flags when
      the lowest of them is set. */
  function LeftBy(m: Message, msg: Data, idx: nat): Message {
    if idx + 8 <= |msg| && msg[idx..idx + 6] == [0x00, 0x04, 0x4D, 0x51, 0x54, 0x54]
       && (msg[idx + 6] == 4 || msg[idx + 6] == 5)
    then m.(version := if msg[idx + 6] == 4 then V4 else m.version,
            connect := WithConnectFlags(m.connect, msg[idx + 7]))
    else m
  }

  lemma ConnectRefused(m: Message, msg: Data)
    requires Whole(msg) && msg[0] / 0x10 == 1 && Parsed(AsWritten, m, msg).0 == Returned(-1)
    ensures Parsed(AsWritten, m, msg).1 == LeftBy(Headed(m, msg, CONNECT), msg, 2)
  {
    WholeParsed(m, msg, CONNECT);
    hide Parsed, Headed, LeftBy, ParsedConnect;
    RefusedConnect(Headed(m, msg, CONNECT), msg, 2);
  }

  lemma RefusedConnect(m: Message, msg: Data, idx: nat)
    requires idx <= |msg| && ParsedConnect(m, msg, idx).0 == Returned(-1)
    ensures ParsedConnect(m, msg, idx).1 == LeftBy(m, msg, idx)
  {
    hide ParsedConnectFlags, WithConnectFlags;
    if Substr(msg, idx, 6) == PROTOCOL_NAME {
      assert idx + 6 <= |msg|;
      if At(msg, idx + 6) == 4 {
        RefusedFlags(m.(version := V4), msg, idx + 7);
      } else if At(msg, idx + 6) == 5 {
        RefusedFlags(m, msg, idx + 7);
      }
    }
  }

  lemma RefusedFlags(m: Message, msg: Data, idx: nat)
    requires idx <= |msg| && ParsedConnectFlags(m, msg, idx).0 == Returned(-1)
    ensures idx < |msg| && ParsedConnectFlags(m, msg, idx).1 == m.(connect := WithConnectFlags(m.connect, msg[idx]))
  {
    FlagsCode(m, msg, idx);
    hide ParsedClientId;
  }

  // ---------------------------------------------------------------- the exception, or a read past the end

  /** A CONNACK without a body reads past its end; no CONNACK ends in an exception. */
  lemma ConnackOverruns(m: Message, msg: Data)
    requires Whole(msg) && msg[0] / 0x10 == 2
    ensures var (outcome, _) := Parsed(AsWritten, m, msg);
            outcome == if |msg| == 2 then Undefined else Returned(1)
  {
    WholeParsed(m, msg, CONNACK);
  }

  /** A PUBLISH does so without a body, when its topic leaves no room for the identifier, or when the properties of
      version 5 begin past its end; whatever else does not return is ended by the exception. */
  lemma PublishOverruns(m: Message, msg: Data)
    requires Whole(msg) && msg[0] / 0x10 == 3
    ensures Parsed(AsWritten, m, msg).0.Undefined?
       <==> |msg| == 2
            || (|msg| >= 4
                && var id, j := msg[0] / 0x04 % 2 == 1 || msg[0] / 0x02 % 2 == 1, 4 + Readings.Pair(msg, 2);
                   (id && |msg| <= j) || (m.version.V5? && |msg| < j + if id then 2 else 0))
  {
    WholeParsed(m, msg, PUBLISH);
    hide Parsed;
  }

  /** So many strings are to be read from here, and one of them begins past the end, not just too near to it. */
  predicate BeginsPast(msg: Data, i: nat, strings: nat)
    decreases strings
  {
    strings > 0 && (i > |msg| || (i + 2 <= |msg| && BeginsPast(msg, End(msg, i), strings - 1)))
  }

  lemma PasswordOverruns(m: Message, msg: Data, i: nat)
    ensures ParsedPassword(m, msg, i).0.Undefined? <==> BeginsPast(msg, i, if m.connect.passwordFlag then 1 else 0)
  {
  }

  lemma UsernameOverruns(m: Message, msg: Data, i: nat)
    ensures ParsedUsername(m, msg, i).0.Undefined?
       <==> BeginsPast(msg, i, (if m.connect.usernameFlag then 1 else 0) + if m.connect.passwordFlag then 1 else 0)
  {
    hide ParsedPassword;
    if m.connect.usernameFlag {
      var (_, s, next) := ParsedString(msg, i);
      PasswordOverruns(m.(connect := m.connect.(username := s)), msg, next);
    } else {
      PasswordOverruns(m, msg, i);
    }
  }

  lemma WillOverruns(m: Message, msg: Data, i: nat)
    ensures ParsedWillTopic(m, msg, i).0.Undefined?
       <==> BeginsPast(msg, i, 2 + (if m.connect.usernameFlag then 1 else 0) + if m.connect.passwordFlag then 1 else 0)
  {
    hide ParsedUsername;
    var (_, topic, next) := ParsedString(msg, i);
    var m1 := m.(connect := m.connect.(willTopic := topic));
    var (_, will, next1) := ParsedString(msg, next);
    UsernameOverruns(m1.(connect := m1.connect.(will := will)), msg, next1);
  }

  lemma ClientIdOverruns(m: Message, msg: Data, i: nat)
    ensures ParsedClientId(m, msg, i).0.Undefined?
       <==> BeginsPast(msg, i, Strings(m.connect.willFlag, m.connect.usernameFlag, m.connect.passwordFlag))
  {
    hide ParsedUsername, ParsedWillTopic;
    var (_, s, next) := ParsedString(msg, i);
    var m1 := m.(connect := m.connect.(clientId := s));
    if m.connect.willFlag {
      WillOverruns(m1, msg, next);
    } else {
      UsernameOverruns(m1, msg, next);
    }
  }

  /** A CONNECT does so when it ends before its flags, or when one of its strings begins past its end. */
  predicate ConnectRunsPast(msg: Data, idx: nat) {
    && idx + 7 <= |msg| && msg[idx..idx + 6] == [0x00, 0x04, 0x4D, 0x51, 0x54, 0x54]
    && (msg[idx + 6] == 4 || msg[idx + 6] == 5)
    && (|msg| == idx + 7
        || (msg[idx + 7] % 2 == 0 && BeginsPast(msg, idx + 10, StringCount(msg[idx + 7]))))
  }

  lemma FlagsOverrun(m: Message, msg: Data, idx: nat)
    requires idx <= |msg|
    ensures ParsedConnectFlags(m, msg, idx).0.Undefined?
       <==> |msg| == idx || (msg[idx] % 2 == 0 && BeginsPast(msg, idx + 3, StringCount(msg[idx])))
  {
    hide ParsedClientId, BeginsPast;
    var flags := At(msg, idx);
    var m1 := m.(connect := WithConnectFlags(m.connect, flags));
    if flags % 2 == 0 && idx + 1 <= |msg| {
      ClientIdOverruns(m1.(connect := m1.connect.(keepAlive := Wide16(At(msg, idx + 1)))), msg, idx + 3);
    }
  }

  lemma ConnectOverruns(m: Message, msg: Data)
    requires Whole(msg) && msg[0] / 0x10 == 1
    ensures Parsed(AsWritten, m, msg).0.Undefined? <==> ConnectRunsPast(msg, 2)
  {
    WholeParsed(m, msg, CONNECT);
    hide Parsed, ParsedConnect, Headed, ConnectRunsPast;
    ContentsOverrun(Headed(m, msg, CONNECT), msg, 2);
  }

  lemma ContentsOverrun(m: Message, msg: Data, idx: nat)
    requires idx <= |msg|
    ensures ParsedConnect(m, msg, idx).0.Undefined? <==> ConnectRunsPast(msg, idx)
  {
    hide BeginsPast, ParsedConnectFlags;
    if idx + 7 <= |msg| {
      FlagsOverrun(m.(version := V4), msg, idx + 7);
      FlagsOverrun(m, msg, idx + 7);
    }
  }
}
