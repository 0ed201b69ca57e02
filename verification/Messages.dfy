/** MQTT control packets as values: the fields of `NmqttMessage`, the bytes `serialize` makes of them and the fields
    `parseMessage` makes of bytes. `NmqttMessage.dfy` holds the class whose methods compute these. */
module Messages {
  import opened Bytes
  import opened PackedInt
  import opened Endian

  datatype Version = V4 | V5

  datatype PacketType =
    | RESERVED | CONNECT | CONNACK | PUBLISH | PUBACK | PUBREC | PUBREL | PUBCOMP | SUBSCRIBE
    | SUBACK | UNSUBSCRIBE | UNSUBACK | PINGREQ | PINGRESP | DISCONNECT | AUTH

  datatype QoS = AtMostOnce | AtLeastOnce | ExactlyOnce

  /** What only a CONNECT carries. The printer looks at `willQos1` and `willQos2`, the parser sets `willQos`. */
  datatype ConnectOptions = ConnectOptions(
    cleanSession: bool,
    willFlag: bool,
    willRetain: bool,
    willQos1: bool,
    willQos2: bool,
    willQos: nat,
    keepAlive: uint16,
    usernameFlag: bool,
    passwordFlag: bool,
    willTopic: Data,
    will: Data,
    clientId: Data,
    username: Data,
    password: Data)

  datatype Message = Message(
    version: Version,
    command: PacketType,
    duplicate: bool,
    qos: QoS,
    retain: bool,
    packetId: uint16,
    messageLength: uint32,
    topic: Data,
    sessionPresent: bool,
    reasonCode: int,
    connect: ConnectOptions,
    parseGood: bool,
    payload: Data)

  /** The code, or the code with the departures from the standard repaired: strict length thresholds in the writer,
      and in the parser the whole length field, the QoS bits in their places, and payloads of one byte kept. */
  datatype Variant = AsWritten | Repaired

  /** The upper four bits of the first byte. */
  function Code(t: PacketType): byte {
    match t
    case RESERVED => 0x00
    case CONNECT => 0x10
    case CONNACK => 0x20
    case PUBLISH => 0x30
    case PUBACK => 0x40
    case PUBREC => 0x50
    case PUBREL => 0x60
    case PUBCOMP => 0x70
    case SUBSCRIBE => 0x80
    case SUBACK => 0x90
    case UNSUBSCRIBE => 0xA0
    case UNSUBACK => 0xB0
    case PINGREQ => 0xC0
    case PINGRESP => 0xD0
    case DISCONNECT => 0xE0
    case AUTH => 0xF0
  }

  function TypeOf(b0: byte): PacketType {
    var n := b0 / 16;
    if n == 0 then RESERVED else if n == 1 then CONNECT else if n == 2 then CONNACK else if n == 3 then PUBLISH
    else if n == 4 then PUBACK else if n == 5 then PUBREC else if n == 6 then PUBREL else if n == 7 then PUBCOMP
    else if n == 8 then SUBSCRIBE else if n == 9 then SUBACK else if n == 10 then UNSUBSCRIBE
    else if n == 11 then UNSUBACK else if n == 12 then PINGREQ else if n == 13 then PINGRESP
    else if n == 14 then DISCONNECT else AUTH
  }

  // ---------------------------------------------------------------- serialize

  /** A string with its 16-bit length in front, section 1.5.3 of MQTT 3.1.1. */
  function StringField(s: Data): Data {
    Prefix16(|s| % 0x1_0000) + s
  }

  /** A string with the prefix the code makes of a length it passes on in 64 bits. */
  function TruncatedField(prefixOf: Data, s: Data): Data {
    TruncatedPrefix(|prefixOf|) + s
  }

  function FirstByte(m: Message): byte {
    match m.command
    case PUBLISH =>
      0x30 + (if m.duplicate then 8 else 0)
      + (match m.qos case AtMostOnce => 0 case AtLeastOnce => 2 case ExactlyOnce => 4)
      + (if m.retain then 1 else 0)
    case SUBSCRIBE => 0x82
    case UNSUBSCRIBE => 0xA2
    case t => Code(t)
  }

  function ConnectFlags(o: ConnectOptions): byte {
    (if o.cleanSession then 0x02 else 0) + (if o.willFlag then 0x04 else 0) + (if o.willQos1 then 0x08 else 0)
    + (if o.willQos2 then 0x10 else 0) + (if o.willRetain then 0x20 else 0)
    + (if o.passwordFlag then 0x40 else 0) + if o.usernameFlag then 0x80 else 0
  }

  /** What line 200 of `message.cpp` makes of the will QoS bits: `+` binds tighter than `&`. */
  function WillQosRead(flags: byte): nat {
    (2 * (flags / 0x10 % 2) + flags / 0x08) % 2
  }

  /** The options can be read back from the flag byte as `parseMessage` does at lines 197 to 202, all but a will QoS of
      2: only the lower of its two bits is looked at. */
  lemma ConnectFlagsReadBack(o: ConnectOptions)
    ensures var f := ConnectFlags(o);
            && (f / 0x80 % 2 == 1 <==> o.usernameFlag) && (f / 0x40 % 2 == 1 <==> o.passwordFlag)
            && (f / 0x20 % 2 == 1 <==> o.willRetain) && (f / 0x04 % 2 == 1 <==> o.willFlag)
            && (f / 0x02 % 2 == 1 <==> o.cleanSession) && f % 2 == 0
            && (f / 0x10 % 2 == 1 <==> o.willQos2) && (f / 0x08 % 2 == 1 <==> o.willQos1)
            && WillQosRead(f) == if o.willQos1 then 1 else 0
  {
    var f := ConnectFlags(o);
    var h1 := (if o.usernameFlag then 2 else 0) + if o.passwordFlag then 1 else 0;
    var h2 := 4 * h1 + (if o.willRetain then 2 else 0) + if o.willQos2 then 1 else 0;
    var h3 := 4 * h2 + (if o.willQos1 then 2 else 0) + if o.willFlag then 1 else 0;
    assert f == 4 * h3 + if o.cleanSession then 2 else 0;
    hide ConnectFlags;
    TwoDigits(f, h3, o.cleanSession, false);
    TwoDigits(h3, h2, o.willQos1, o.willFlag);
    TwoDigits(h2, h1, o.willRetain, o.willQos2);
    TwoDigits(h1, 0, o.usernameFlag, o.passwordFlag);
    Quotients(f, h3, h2, h1);
    hide WillQosRead;
    WillQosBit(f);
  }

  lemma Quotients(f: nat, h3: nat, h2: nat, h1: nat)
    requires f / 4 == h3 && h3 / 4 == h2 && h2 / 4 == h1
    ensures f / 0x08 == h3 / 2 && f / 0x10 == h2 && f / 0x20 == h2 / 2 && f / 0x40 == h1 && f / 0x80 == h1 / 2
  {
    Quarters(f);
    Quarters(f / 16);
    Sixteenths(f);
  }

  lemma TwoDigits(n: nat, h: nat, high: bool, low: bool)
    requires n == 4 * h + (if high then 2 else 0) + if low then 1 else 0
    ensures (n % 2 == 1 <==> low) && (n / 2 % 2 == 1 <==> high) && n / 4 == h
  {
  }

  lemma Quarters(n: nat)
    ensures n / 8 == n / 4 / 2 && n / 16 == n / 4 / 4
  {
  }

  lemma Sixteenths(n: nat)
    ensures n / 32 == n / 16 / 2 && n / 64 == n / 16 / 4 && n / 128 == n / 16 / 8
  {
  }

  lemma WillQosBit(f: byte)
    ensures WillQosRead(f) == f / 8 % 2
  {
    var q, e := f / 0x10 % 2, f / 8;
    assert 2 * q + e == 2 * (q + e / 2) + e % 2;
  }

  function ConnectPayload(o: ConnectOptions): Data {
    StringField(o.clientId)
    + (if o.willFlag then TruncatedField(o.willTopic, o.willTopic) + TruncatedField(o.will, o.will) else [])
    + (if o.usernameFlag then TruncatedField(o.willTopic, o.username) else [])
    + (if o.passwordFlag then TruncatedField(o.password, o.password) else [])
  }

  const PROTOCOL_NAME: Data := [0x00, 0x04, 0x4D, 0x51, 0x54, 0x54]
  const KEEP_ALIVE: uint16 := 60
  const SESSION_EXPIRY: Data := [0x05, 0x11, 0x0A, 0x00, 0x00, 0x00]
  const PACKET_ID: uint16 := 10

  function VariableHeader(m: Message): Data {
    match m.command
    case CONNECT =>
      PROTOCOL_NAME + [if m.version.V5? then 5 else 4, ConnectFlags(m.connect)] + Prefix16(KEEP_ALIVE)
      + (if m.version.V5? then SESSION_EXPIRY else [])
    case CONNACK => [0, 0]
    case PUBLISH =>
      StringField(m.topic) + (if m.qos.AtMostOnce? then [] else Prefix16(m.packetId))
      + (if m.version.V5? then [0] else [])
    case SUBSCRIBE => Prefix16(PACKET_ID) + if m.version.V5? then [0] else []
    case UNSUBSCRIBE => Prefix16(PACKET_ID) + Prefix16(m.packetId)
    case _ => []
  }

  /** What `serialize` appends to the payload member before writing it out. */
  function PayloadSuffix(m: Message): Data {
    match m.command
    case CONNECT => ConnectPayload(m.connect)
    case SUBSCRIBE => StringField(m.topic) + [0]
    case UNSUBSCRIBE => TruncatedField(m.topic, m.topic)
    case _ => []
  }

  /** Everything after the fixed header. */
  function Body(m: Message): Data {
    VariableHeader(m) + (m.payload + PayloadSuffix(m))
  }

  function ThresholdsOf(v: Variant): Thresholds {
    if v.Repaired? then Strict else Literal
  }

  /** The length field: the remaining length is computed in 32 bits, and the writer may refuse it. */
  function LengthField(v: Variant, remaining: nat): (bs: Data)
    ensures |bs| == LengthBytes(ThresholdsOf(v), remaining % 0x1_0000_0000)
  {
    PackedBytes(remaining % 0x1_0000_0000, LengthBytes(ThresholdsOf(v), remaining % 0x1_0000_0000))
  }

  function Serialized(v: Variant, m: Message): Data {
    [FirstByte(m)] + LengthField(v, |Body(m)|) + Body(m)
  }

  // ---------------------------------------------------------------- parseMessage

  /** How a parse ends: by returning, by the exception `std::string::substr` throws, or by reading past the terminator
      that follows the string's last byte, of which the language defines nothing. */
  datatype Outcome = Returned(code: int) | OutOfRange | Undefined

  /** `msg[i]`: the byte, or the terminator one past the end. */
  function At(msg: Data, i: nat): byte
    requires i <= |msg|
  {
    if i < |msg| then msg[i] else 0
  }

  /** `msg.substr(pos, n)`, where it does not throw. */
  function Substr(msg: Data, pos: nat, n: nat): Data
    requires pos <= |msg|
  {
    if pos + n <= |msg| then msg[pos..pos + n] else msg[pos..]
  }

  /** A `char` is signed, so that widening one with its top bit set fills the bits above. */
  function Widened(b: byte): uint32 {
    if b < 0x80 then b else 0xFFFF_FF00 + b
  }

  function SignedChar(b: byte): int {
    if b < 0x80 then b else b - 0x100
  }

  function QosOf(v: Variant, b0: byte, before: QoS): QoS {
    var bit2, bit1 := b0 / 4 % 2 == 1, b0 / 2 % 2 == 1;
    if bit2 && bit1 then AtMostOnce
    else if bit2 then (if v.Repaired? then ExactlyOnce else AtLeastOnce)
    else if bit1 then (if v.Repaired? then AtLeastOnce else ExactlyOnce)
    else before
  }

  predicate HasPacketId(b0: byte) {
    b0 / 4 % 2 == 1 || b0 / 2 % 2 == 1
  }

  function WithFlags(v: Variant, m: Message, b0: byte): Message {
    m.(parseGood := false, command := TypeOf(b0), duplicate := b0 / 8 % 2 == 1, qos := QosOf(v, b0, m.qos),
       retain := b0 % 2 == 1)
  }

  /** The remaining length the parser reads, and how many bytes it takes the field to have: the code decodes a word
      made of the first length byte alone. A count of 5 says that the field does not end. */
  function ReadLength(v: Variant, msg: Data): (r: (nat, nat))
    requires |msg| >= 2
    ensures r.0 < 0x1000_0000 && 1 <= r.1 <= 5
  {
    if v.Repaired? then
      DecodeBytesBounded(msg[1..]);
      var (value, count) := DecodeBytes(msg[1..]);
      if count <= 4 then (value, count) else (0, 5)
    else
      DecodedBounded(Widened(msg[1]), 4);
      Decoded(Widened(msg[1]), 4)
  }

  function Parsed(v: Variant, m: Message, msg: Data): (Outcome, Message) {
    if |msg| < 2 then (Returned(-1), m.(parseGood := false))
    else
      var (length, count) := ReadLength(v, msg);
      var m1 := WithFlags(v, m, msg[0]).(messageLength := length);
      if (v.Repaired? && count == 5) || count + 1 + length != |msg| then (Returned(-1), m1)
      else ParsedBody(v, m1, msg, count + 1)
  }

  function ParsedBody(v: Variant, m: Message, msg: Data, idx: nat): (Outcome, Message)
    requires 2 <= idx <= |msg|
  {
    match m.command
    case CONNECT => ParsedConnect(m, msg, idx)
    case CONNACK =>
      if idx + 1 > |msg| then (Undefined, m.(sessionPresent := At(msg, idx) != 0))
      else
        (Returned(1), m.(sessionPresent := At(msg, idx) != 0, reasonCode := SignedChar(At(msg, idx + 1)),
                         parseGood := true))
    case PUBLISH =>
      if idx + 1 > |msg| then (Undefined, m)
      else if idx + 2 > |msg| then (OutOfRange, m)
      else
        var strlen := 0x100 * At(msg, idx) as int + At(msg, idx + 1) as int;
        ParsedAfterTopic(v, m.(topic := Substr(msg, idx + 2, strlen)), msg, idx + 2 + strlen)
    case _ => (Returned(1), m.(parseGood := true))
  }

  function ParsedAfterTopic(v: Variant, m: Message, msg: Data, idx: nat): (Outcome, Message)
    requires |msg| > 0
  {
    if HasPacketId(msg[0]) then
      if idx + 1 > |msg| then (Undefined, m)
      else ParsedAfterId(v, m.(packetId := 0x100 * At(msg, idx) as int + At(msg, idx + 1) as int), msg, idx + 2)
    else ParsedAfterId(v, m, msg, idx)
  }

  function ParsedAfterId(v: Variant, m: Message, msg: Data, idx: nat): (Outcome, Message) {
    if m.version.V5? then
      if idx > |msg| then (Undefined, m) else ParsedPayload(v, m, msg, idx + 1)
    else ParsedPayload(v, m, msg, idx)
  }

  function ParsedPayload(v: Variant, m: Message, msg: Data, idx: nat): (Outcome, Message) {
    if v.AsWritten? && idx + 1 == |msg| then (Returned(1), m.(parseGood := true))
    else if idx > |msg| then (OutOfRange, m)
    else (Returned(1), m.(payload := msg[idx..], parseGood := true))
  }

  // ---------------------------------------------------------------- the CONNECT branch

  /** A `char` widened to 16 bits. */
  function Wide16(b: byte): uint16 {
    if b < 0x80 then b else 0xFF00 + b
  }

  function WithConnectFlags(o: ConnectOptions, flags: byte): ConnectOptions {
    o.(usernameFlag := flags / 0x80 % 2 == 1, passwordFlag := flags / 0x40 % 2 == 1,
       willRetain := flags / 0x20 % 2 == 1, willQos := WillQosRead(flags), willFlag := flags / 0x04 % 2 == 1,
       cleanSession := flags / 0x02 % 2 == 1)
  }

  function ParsedConnect(m: Message, msg: Data, idx: nat): (Outcome, Message)
    requires idx <= |msg|
  {
    if Substr(msg, idx, 6) != PROTOCOL_NAME then (Returned(-1), m)
    else
      var level := At(msg, idx + 6);
      if level == 4 then ParsedConnectFlags(m.(version := V4), msg, idx + 7)
      else if level == 5 then ParsedConnectFlags(m, msg, idx + 7)  // the version is compared and not set
      else (Returned(-1), m)
  }

  /** The flags and the keep-alive. */
  function ParsedConnectFlags(m: Message, msg: Data, idx: nat): (Outcome, Message)
    requires idx <= |msg|
  {
    var flags := At(msg, idx);
    var m1 := m.(connect := WithConnectFlags(m.connect, flags));
    if flags % 2 == 1 then (Returned(-1), m1)
    else if idx + 1 > |msg| then (Undefined, m1)
    else ParsedClientId(m1.(connect := m1.connect.(keepAlive := Wide16(At(msg, idx + 1)))), msg, idx + 3)
  }

  /** A string of the payload, whose length is taken from the first of its two length bytes, and where it ends. */
  function ParsedString(msg: Data, idx: nat): (Outcome, Data, nat) {
    if idx > |msg| then (Undefined, [], idx)
    else if idx + 2 > |msg| then (OutOfRange, [], idx)
    else
      var len := Wide16(At(msg, idx));
      (Returned(1), Substr(msg, idx + 2, len), idx + 2 + len)
  }

  function ParsedClientId(m: Message, msg: Data, idx: nat): (Outcome, Message) {
    var (outcome, s, next) := ParsedString(msg, idx);
    if !outcome.Returned? then (outcome, m)
    else
      var m1 := m.(connect := m.connect.(clientId := s));
      if m1.connect.willFlag then ParsedWillTopic(m1, msg, next) else ParsedUsername(m1, msg, next)
  }

  function ParsedWillTopic(m: Message, msg: Data, idx: nat): (Outcome, Message) {
    var (outcome, s, next) := ParsedString(msg, idx);
    if !outcome.Returned? then (outcome, m)
    else ParsedWill(m.(connect := m.connect.(willTopic := s)), msg, next)
  }

  function ParsedWill(m: Message, msg: Data, idx: nat): (Outcome, Message) {
    var (outcome, s, next) := ParsedString(msg, idx);
    if !outcome.Returned? then (outcome, m)
    else ParsedUsername(m.(connect := m.connect.(will := s)), msg, next)
  }

  function ParsedUsername(m: Message, msg: Data, idx: nat): (Outcome, Message) {
    if !m.connect.usernameFlag then ParsedPassword(m, msg, idx)
    else
      var (outcome, s, next) := ParsedString(msg, idx);
      if !outcome.Returned? then (outcome, m)
      else ParsedPassword(m.(connect := m.connect.(username := s)), msg, next)
  }

  function ParsedPassword(m: Message, msg: Data, idx: nat): (Outcome, Message) {
    if !m.connect.passwordFlag then (Returned(1), m.(parseGood := true))
    else
      var (outcome, s, next) := ParsedString(msg, idx);
      if !outcome.Returned? then (outcome, m)
      else (Returned(1), m.(connect := m.connect.(password := s), parseGood := true))
  }

  /** A message as its constructor leaves it, after `setProtocolVersion`: what is not set is arbitrary. */
  predicate Fresh(m: Message, version: Version) {
    m.version == version && m.topic == [] && m.payload == [] && m.qos.AtMostOnce? && !m.duplicate && !m.retain
  }
}
