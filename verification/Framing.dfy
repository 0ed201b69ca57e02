/** Frames on the wire: every packet declares its own length, and a stream of packets comes apart again. */
module Framing {
  import opened Bytes
  import opened PackedInt
  import opened FixedHeader
  import opened Endian
  import opened Messages

  /** A byte string that is one control packet: a first byte, a length field that ends, and as many bytes as the
      field says. */
  predicate IsFrame(f: Data) {
    |f| >= 2 &&
    var (length, count) := DecodeBytes(f[1..]);
    count <= 4 && count < |f| && |f| == 1 + count + length
  }

  /** The numbers a variant's length field carries. */
  predicate Survives(v: Variant, n: nat) {
    if v.AsWritten? then Exact(n) else n < 0x1000_0000
  }

  // ---------------------------------------------------------------- every packet declares its length

  lemma LengthFieldDecoded(v: Variant, remaining: nat, tail: Data)
    requires |LengthField(v, remaining)| > 0
    ensures var (length, count) := DecodeBytes(LengthField(v, remaining) + tail);
            count == |LengthField(v, remaining)| && (length == remaining <==> Survives(v, remaining))
  {
    hide DecodeBytes, PackedBytes, Kept, Capacity;
    var low := remaining % 0x1_0000_0000;
    var k := LengthBytes(ThresholdsOf(v), low);
    DecodePacked(low, k, tail);
    KeptWhole(low, k);
    Capacities();
    if remaining >= 0x1_0000_0000 {
      DecodeBytesBounded(LengthField(v, remaining) + tail);
    }
  }

  /** A body that the writer refuses a length, so that its own first bytes stand where the length field should, and
      that happen to encode the length of the rest. */
  predicate LooksDeclared(v: Variant, body: Data) {
    && LengthField(v, |body|) == []
    && 0x1000_0000 <= |body| < 0x1000_0004
    && body[..4] == [0xFC + (|body| - 0x1000_0000), 0xFF, 0xFF, 0x7F]
  }

  /** The packets that declare their length: those whose length the integer codec carries, and that coincidence. */
  predicate Declares(v: Variant, body: Data) {
    Survives(v, |body|) || LooksDeclared(v, body)
  }

  lemma FourBytesDecoded(bs: Data, n: nat)
    requires |bs| == 4 && n >= 0x1000_0000
    ensures var (value, count) := DecodeBytes(bs);
            count <= 4 && count + value == n
            <==> n < 0x1000_0004 && bs == [0xFC + (n - 0x1000_0000), 0xFF, 0xFF, 0x7F]
  {
    var (value, count) := DecodeBytes(bs);
    DecodeCount(bs);
    var b, c, d := bs[1..], bs[2..], bs[3..];
    assert b[1..] == c && c[1..] == d && d[1..] == [];
    assert bs == [bs[0], bs[1], bs[2], bs[3]];
    assert DecodeBytes(d) == if bs[3] < 128 then (bs[3] as nat, 1) else (bs[3] - 128, 2);
    assert bs[2] >= 128 ==> DecodeBytes(c).0 == bs[2] - 128 + 128 * DecodeBytes(d).0;
    assert bs[1] >= 128 ==> DecodeBytes(b).0 == bs[1] - 128 + 128 * DecodeBytes(c).0;
  }

  lemma RefusedIsLarge(v: Variant, n: nat)
    requires LengthField(v, n) == []
    ensures n >= 0x1000_0000 && !Survives(v, n)
  {
  }

  /** Scanning any buffer that starts with a serialized packet gives the packet's own size exactly for the remaining
      lengths that the integer codec carries, and for that coincidence when the writer refuses the length. It holds for
      all packet types and all field contents. */
  lemma DeclaresItsLength(v: Variant, m: Message, pad: Data, msglen: uint32, idx: int)
    requires |Serialized(v, m) + pad| >= 5
    ensures var scan := ScanOf(Serialized(v, m) + pad, 5, msglen, idx);
            scan.code == COMPLETE && scan.idx + scan.msglen == |Serialized(v, m)| <==> Declares(v, Body(m))
  {
    hide Body, LengthField;
    if LengthField(v, |Body(m)|) == [] {
      RefusedIsLarge(v, |Body(m)|);
      RefusedScan(FirstByte(m), Body(m), pad, v, msglen, idx);
      assert Serialized(v, m) == [FirstByte(m)] + Body(m);
    } else {
      ScanOfParts(FirstByte(m), LengthField(v, |Body(m)|), Body(m), pad, v, msglen, idx);
    }
  }

  lemma RefusedScan(b0: byte, body: Data, pad: Data, v: Variant, msglen: uint32, idx: int)
    requires |body| >= 0x1000_0000
    ensures var scan := ScanOf([b0] + body + pad, 5, msglen, idx);
            scan.code == COMPLETE && scan.idx + scan.msglen == 1 + |body|
            <==> |body| < 0x1000_0004 && body[..4] == [0xFC + (|body| - 0x1000_0000), 0xFF, 0xFF, 0x7F]
  {
    assert ([b0] + body + pad)[1..5] == body[..4];
    DecodeBytesBounded(body[..4]);
    FourBytesDecoded(body[..4], |body|);
    hide DecodeBytes;
  }

  lemma ScanOfParts(b0: byte, field: Data, body: Data, pad: Data, v: Variant, msglen: uint32, idx: int)
    requires field == LengthField(v, |body|) && |field| > 0
    requires |[b0] + field + body + pad| >= 5
    ensures var scan := ScanOf([b0] + field + body + pad, 5, msglen, idx);
            && scan.code == COMPLETE && scan.idx == 1 + |field|
            && (scan.msglen == |body| <==> Survives(v, |body|))
  {
    var buff := [b0] + field + body + pad;
    var rest := body + pad;
    assert buff[1..] == field + rest;
    assert buff[1..5] == field + rest[..4 - |field|];
    hide DecodeBytes, LengthField;
    LengthFieldDecoded(v, |body|, rest[..4 - |field|]);
  }

  /** Hence what the writer makes is a frame for exactly those packets. */
  lemma SerializedIsFrame(v: Variant, m: Message)
    ensures IsFrame(Serialized(v, m)) <==> Declares(v, Body(m))
  {
    hide Body, LengthField, DecodeBytes;
    var field, body := LengthField(v, |Body(m)|), Body(m);
    assert Serialized(v, m)[1..] == field + body;
    if field == [] {
      RefusedIsLarge(v, |body|);
      DecodeIgnoresRest(body);
      FourBytesDecoded(body[..4], |body|);
      assert field + body == body;
    } else {
      LengthFieldDecoded(v, |body|, body);
    }
  }

  /** A length field that ends within four bytes is decoded from those alone. */
  lemma DecodeIgnoresRest(bs: Data)
    requires |bs| >= 4
    ensures DecodeBytes(bs).1 <= 4 <==> DecodeBytes(bs[..4]).1 <= 4
    ensures DecodeBytes(bs).1 <= 4 ==> DecodeBytes(bs) == DecodeBytes(bs[..4])
  {
    if DecodeBytes(bs).1 <= 4 {
      DecodePrefix(bs, 4);
    }
    if DecodeBytes(bs[..4]).1 <= 4 {
      DecodeIgnoresTail(bs[..4], bs[4..]);
      assert bs[..4] + bs[4..] == bs;
    }
  }

  /** The coincidence happens: a PUBLISH at QoS 0 whose topic is 0xFDFF bytes long and starts with FF 7F, with the
      payload that fills it up. */
  lemma RefusedButDeclared(m: Message)
    requires m.command == PUBLISH && m.version.V4? && m.qos.AtMostOnce?
    requires |m.topic| == 0xFDFF && m.topic[..2] == [0xFF, 0x7F] && 2 + |m.topic| + |m.payload| == 0x1000_0001
    ensures LengthField(AsWritten, |Body(m)|) == [] && IsFrame(Serialized(AsWritten, m))
  {
    var body := Body(m);
    assert body == Prefix16(0xFDFF) + (m.topic + m.payload);
    assert body[..4] == [0xFD, 0xFF, 0xFF, 0x7F];
    assert LengthField(AsWritten, |body|) == [];
    hide Body;
    SerializedIsFrame(AsWritten, m);
  }

  // ---------------------------------------------------------------- streams of frames

  /** No frame is a proper prefix of what another one starts. */
  lemma PrefixFree(f: Data, g: Data, x: Data, y: Data)
    requires IsFrame(f) && IsFrame(g) && f + x == g + y
    ensures f == g && x == y
  {
    DecodeIgnoresTail(f[1..], x);
    DecodeIgnoresTail(g[1..], y);
    assert f[1..] + x == (f + x)[1..] == (g + y)[1..] == g[1..] + y;
    assert f == (f + x)[..|f|] && x == (f + x)[|f|..];
    assert g == (g + y)[..|g|] && y == (g + y)[|g|..];
  }

  /** The five byte buffer a header is scanned in: the bytes received, over whatever was there before. */
  function Window(received: Data, stale: Data): (buff: Data)
    requires |stale| == 5
    ensures |buff| == 5
  {
    if |received| >= 5 then received[..5] else received + stale[|received|..]
  }

  /** Scanning the start of a stream. */
  function HeaderAt(stream: Data, stale: Data): Scan
    requires |stale| == 5
  {
    ScanOf(Window(stream, stale), if |stream| < 5 then |stream| else 5, 0, 0)
  }

  /** The scan finds the first frame of a stream, whatever comes after it and whatever bytes the buffer held. */
  lemma FirstFrameFound(f: Data, tail: Data, stale: Data)
    requires IsFrame(f) && |stale| == 5
    ensures var scan := HeaderAt(f + tail, stale);
            && scan.code == COMPLETE && scan.idx == 1 + DecodeBytes(f[1..]).1
            && scan.idx + scan.msglen == |f|
  {
    var k := DecodeBytes(f[1..]).1;
    var window := Window(f + tail, stale);
    var field := window[1..5];
    assert window[..1 + k] == (f + tail)[..1 + k] == f[..1 + k];
    assert field[..k] == window[1..1 + k];
    assert window[1..1 + k] == window[..1 + k][1..];
    assert f[1..][..k] == f[..1 + k][1..];
    DecodePrefix(f[1..], k);
    DecodeIgnoresTail(field[..k], field[k..]);
    assert field == field[..k] + field[k..];
  }

  lemma CutOff(stream: Data, size: nat, frames: seq<Data>, rest: Data)
    requires size <= |stream| && Concat(frames) + rest == stream[size..]
    ensures Concat([stream[..size]] + frames) + rest == stream
  {
  }

  /** Cutting frames off a stream until the rest does not hold a whole one. */
  function Split(stream: Data, stale: Data): (r: (seq<Data>, Data))
    requires |stale| == 5
    ensures Concat(r.0) + r.1 == stream
    decreases |stream|
  {
    var scan := HeaderAt(stream, stale);
    if scan.code != COMPLETE || scan.idx + scan.msglen > |stream| then ([], stream)
    else
      var size := scan.idx + scan.msglen;
      HeaderIsNotEmpty(stream, stale);
      var (frames, rest) := Split(stream[size..], stale);
      CutOff(stream, size, frames, rest);
      ([stream[..size]] + frames, rest)
  }

  /** The first cut. */
  lemma SplitStep(stream: Data, stale: Data)
    requires |stale| == 5
    ensures var scan := HeaderAt(stream, stale);
            var size := scan.idx + scan.msglen;
            if scan.code != COMPLETE || size > |stream| then Split(stream, stale) == ([], stream)
            else 2 <= size && Split(stream, stale).0 == [stream[..size]] + Split(stream[size..], stale).0
  {
  }

  lemma HeaderIsNotEmpty(stream: Data, stale: Data)
    requires |stale| == 5
    ensures HeaderAt(stream, stale).code == COMPLETE ==> HeaderAt(stream, stale).idx >= 2
  {
  }

  /** Frames are self-delimiting: any concatenation of them comes apart into exactly the frames it was made of. */
  lemma {:induction false} SplitConcat(frames: seq<Data>, stale: Data)
    requires |stale| == 5 && forall f :: f in frames ==> IsFrame(f)
    ensures Split(Concat(frames), stale) == (frames, [])
  {
    var stream := Concat(frames);
    if frames == [] {
      assert HeaderAt(stream, stale).code == CORRUPT;
    } else {
      var f, tail := frames[0], Concat(frames[1..]);
      FirstFrameFound(f, tail, stale);
      HeaderIsNotEmpty(stream, stale);
      assert stream[..|f|] == f && stream[|f|..] == tail;
      SplitConcat(frames[1..], stale);
      assert [f] + frames[1..] == frames;
    }
  }

  function SerializeAll(v: Variant, ms: seq<Message>): (frames: seq<Data>)
    ensures |frames| == |ms|
    ensures forall i :: 0 <= i < |ms| ==> frames[i] == Serialized(v, ms[i])
  {
    if ms == [] then [] else [Serialized(v, ms[0])] + SerializeAll(v, ms[1..])
  }

  /** For messages: a stream of serialized packets gives back the list of packets, if they declare their lengths. */
  lemma MessagesAreDelimited(v: Variant, ms: seq<Message>, stale: Data)
    requires |stale| == 5 && forall m :: m in ms ==> Declares(v, Body(m))
    ensures Split(Concat(SerializeAll(v, ms)), stale) == (SerializeAll(v, ms), [])
  {
    var frames := SerializeAll(v, ms);
    forall f | f in frames ensures IsFrame(f) {
      var i :| 0 <= i < |frames| && frames[i] == f;
      assert ms[i] in ms;
      SerializedIsFrame(v, ms[i]);
    }
    SplitConcat(frames, stale);
  }

  // ---------------------------------------------------------------- serializing twice

  /** The message as `serialize` leaves it. */
  function AfterSerialize(m: Message): Message {
    m.(payload := m.payload + PayloadSuffix(m))
  }

  /** `serialize` gives the same bytes when called again exactly for the packets that add nothing to the payload
      member: CONNECT, SUBSCRIBE and UNSUBSCRIBE grow with every call. */
  lemma SerializeAgain(m: Message)
    ensures Serialized(AsWritten, AfterSerialize(m)) == Serialized(AsWritten, m)
       <==> !(m.command.CONNECT? || m.command.SUBSCRIBE? || m.command.UNSUBSCRIBE?)
  {
    var m' := AfterSerialize(m);
    var h := VariableHeader(m);
    var first, second := Serialized(AsWritten, m), Serialized(AsWritten, m');
    if m.command.CONNECT? || m.command.SUBSCRIBE? || m.command.UNSUBSCRIBE? {
      GrowingPacket(m);
      var d := |PayloadSuffix(m)|;
      assert VariableHeader(m') == h && PayloadSuffix(m') == PayloadSuffix(m);
      assert |Body(m')| == |Body(m)| + d;
      hide Body, VariableHeader, PayloadSuffix;
      FieldsDiffer(|Body(m)|, d);
      var k, k' := |LengthField(AsWritten, |Body(m)|)|, |LengthField(AsWritten, |Body(m')|)|;
      if k' == 0 && k >= 2 {
        assert first[1] == LengthField(AsWritten, |Body(m)|)[0];
        assert second[1] == Body(m')[0];
      }
    } else {
      assert PayloadSuffix(m) == [] && m.payload + [] == m.payload;
    }
  }

  lemma GrowingPacket(m: Message)
    requires m.command.CONNECT? || m.command.SUBSCRIBE? || m.command.UNSUBSCRIBE?
    ensures |PayloadSuffix(m)| >= 2 && |VariableHeader(m)| > 0 && VariableHeader(m)[0] == 0
    ensures Body(AfterSerialize(m))[0] == 0
  {
  }

  lemma FieldsDiffer(n: nat, d: nat)
    requires d >= 2
    ensures var k, k' := |LengthField(AsWritten, n)|, |LengthField(AsWritten, n + d)|;
            k' + d != k || (k' == 0 && k >= 2 && LengthField(AsWritten, n)[0] >= 128)
  {
    var low, low' := n % 0x1_0000_0000, (n + d) % 0x1_0000_0000;
    if d <= 4 {
      assert low' == if low + d < 0x1_0000_0000 then low + d else low + d - 0x1_0000_0000;
      LengthBytesGrow(low, d);
      var k := LengthBytes(Literal, low);
      assert k >= 2 ==> PackedBytes(low, k)[0] >= 128;
    }
  }

  lemma LengthBytesGrow(n: nat, d: nat)
    requires d <= 4
    ensures var k, k' := LengthBytes(Literal, n), LengthBytes(Literal, n + d);
            (k' == 0 || k <= k') && (n + d >= 0x1_0000_0000 ==> k == 0)
  {
  }
}
