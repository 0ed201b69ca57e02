/** The receive loops of `session.cpp` and `client_listener.cpp`: frames put together again from whatever pieces
    the socket delivers them in, and parsed one after the other. */
module Session {
  import opened Bytes
  import opened PackedInt
  import opened FixedHeader
  import opened Messages
  import opened NmqttMessages
  import opened PublishRoundTrip
  import opened ParseReturns
  import opened Framing

  /** A connected socket. `pending` is everything the peer sends from now on until it closes the connection. */
  class Socket {
    var pending: Data

    constructor (stream: Data)
      ensures pending == stream
    {
      pending := stream;
    }

    /** `receiveBytes`: any non-empty part of what was asked for, and nothing only when the peer has closed. Polls
        that find nothing yet are not part of the model. */
    method ReceiveBytes(n: nat) returns (data: Data)
      requires n > 0
      modifies this
      ensures data + pending == old(pending)
      ensures |data| <= n && (data == [] <==> old(pending) == [])
    {
      if pending == [] {
        data := [];
      } else {
        var most := if n < |pending| then n else |pending|;
        var k :| 1 <= k <= most;
        data := pending[..k];
        pending := pending[k..];
      }
    }
  }

  /** One round of the loop: the peer closed, a lone byte came and was thrown away, or a message was put together. */
  datatype Received = Closed | Short | Packet(binMsg: Data)

  // ---------------------------------------------------------------- the loop as written

  /** What a round makes of a stream when both header bytes arrive together: the message, the stream left over and
      the header buffer. The sizes in which the rest arrives play no part. */
  function LiteralRead(pending: Data, buff: Data): (r: (Data, Data, Data))
    requires |pending| >= 2 && |buff| == 5
    ensures |r.2| == 5 && |r.1| <= |pending| - 2
  {
    var header := pending[..2] + buff[2..];
    var scan := ScanOf(header, 5, 0, 0);
    ScanInRange(header, 5, 0, 0);
    var body := pending[2..];
    var take := if scan.msglen < |body| then scan.msglen else |body|;
    (header[..scan.idx] + body[..take], body[take..], header)
  }

  lemma ScanInRange(buff: Data, len: int, msglen: uint32, idx: int)
    requires |buff| >= 5 && len >= 5
    ensures 2 <= ScanOf(buff, len, msglen, idx).idx <= 5
    ensures ScanOf(buff, len, msglen, idx).idx == 2 <==> buff[1] < 128
    ensures ScanOf(buff, len, msglen, idx).code != MORE_NEEDED
  {
  }

  /** How a run ends: the peer closes, or the parse of a message does not return, which ends the run before the message
      is handed over. When the parse reads past its input, nothing more is said. */
  datatype Ending = PeerClosed | ParseFailed

  /** The whole run over a stream: the messages handed over, the number of bytes thrown away, and the ending. A true
      entry of `apart` says that the two header bytes of this round come apart; the last byte of a stream always comes
      alone. */
  function LiteralRun(pending: Data, buff: Data, apart: seq<bool>): (r: (seq<Data>, nat, Ending))
    requires |buff| == 5
    decreases |pending|
  {
    if pending == [] then ([], 0, PeerClosed)
    else if |pending| == 1 || (apart != [] && apart[0]) then
      var (more, lost, ending) := LiteralRun(pending[1..], [pending[0]] + buff[1..], Later(apart));
      (more, lost + 1, ending)
    else
      var (binMsg, rest, header) := LiteralRead(pending, buff);
      if !Returns(AsWritten, V4, binMsg) then ([], 0, ParseFailed)
      else
        var (more, lost, ending) := LiteralRun(rest, header, Later(apart));
        ([binMsg] + more, lost, ending)
  }

  function Later(apart: seq<bool>): seq<bool> {
    if apart == [] then [] else apart[1..]
  }

  /** What has been handed over and thrown away so far, and what the rest of the stream gives, make up the whole. */
  ghost predicate SoFar(stream: Data, stale: Data, apart: seq<bool>, pending: Data, buff: Data, handed: seq<Data>,
                        lost: nat)
    requires |stale| == 5 && |buff| == 5
  {
    forall future ::
      var (more, l, ending) := LiteralRun(pending, buff, future);
      LiteralRun(stream, stale, apart + future) == (handed + more, lost + l, ending)
  }

  lemma ShortSoFar(stream: Data, stale: Data, apart: seq<bool>, pending: Data, buff: Data, handed: seq<Data>, lost: nat)
    requires |stale| == 5 && |buff| == 5 && pending != []
    requires SoFar(stream, stale, apart, pending, buff, handed, lost)
    ensures SoFar(stream, stale, apart + [true], pending[1..], [pending[0]] + buff[1..], handed, lost + 1)
  {
    hide Returns;
    forall future: seq<bool>
      ensures var (more, l, ending) := LiteralRun(pending[1..], [pending[0]] + buff[1..], future);
              LiteralRun(stream, stale, apart + [true] + future) == (handed + more, lost + 1 + l, ending)
    {
      assert Later([true] + future) == future;
      assert apart + [true] + future == apart + ([true] + future);
    }
  }

  lemma PacketSoFar(stream: Data, stale: Data, apart: seq<bool>, pending: Data, buff: Data, handed: seq<Data>, lost: nat)
    requires |stale| == 5 && |buff| == 5 && |pending| >= 2 && Returns(AsWritten, V4, LiteralRead(pending, buff).0)
    requires SoFar(stream, stale, apart, pending, buff, handed, lost)
    ensures var (binMsg, rest, header) := LiteralRead(pending, buff);
            SoFar(stream, stale, apart + [false], rest, header, handed + [binMsg], lost)
  {
    hide LiteralRead, Returns;
    var (binMsg, rest, header) := LiteralRead(pending, buff);
    forall future: seq<bool>
      ensures var (more, l, ending) := LiteralRun(rest, header, future);
              LiteralRun(stream, stale, apart + [false] + future) == (handed + [binMsg] + more, lost + l, ending)
    {
      assert Later([false] + future) == future;
      assert apart + [false] + future == apart + ([false] + future);
      var more := LiteralRun(rest, header, future).0;
      assert handed + ([binMsg] + more) == handed + [binMsg] + more;
    }
  }

  lemma StartSoFar(stream: Data, stale: Data)
    requires |stale| == 5
    ensures SoFar(stream, stale, [], stream, stale, [], 0)
  {
    forall future: seq<bool> ensures [] + future == future {
    }
    assert forall more: seq<Data> :: [] + more == more;
  }

  lemma EndSoFar(stream: Data, stale: Data, apart: seq<bool>, buff: Data, handed: seq<Data>, lost: nat)
    requires |stale| == 5 && |buff| == 5 && SoFar(stream, stale, apart, [], buff, handed, lost)
    ensures LiteralRun(stream, stale, apart) == (handed, lost, PeerClosed)
  {
    assert LiteralRun([], buff, []) == ([], 0, PeerClosed);
    assert apart + [] == apart && handed + [] == handed;
  }

  lemma FailSoFar(stream: Data, stale: Data, apart: seq<bool>, pending: Data, buff: Data, handed: seq<Data>, lost: nat)
    requires |stale| == 5 && |buff| == 5 && |pending| >= 2 && !Returns(AsWritten, V4, LiteralRead(pending, buff).0)
    requires SoFar(stream, stale, apart, pending, buff, handed, lost)
    ensures LiteralRun(stream, stale, apart + [false]) == (handed, lost, ParseFailed)
  {
    hide LiteralRead, Returns;
    assert LiteralRun(pending, buff, [false]) == ([], 0, ParseFailed);
    assert handed + [] == handed;
  }

  /** The outcome and fields of `parseMessage` on a fresh object. */
  ghost predicate ParsedAfresh(v: Variant, version: Version, parsed: (Outcome, Message), msg: Data) {
    exists blank :: Fresh(blank, version) && parsed == Parsed(v, blank, msg)
  }

  /** Each message handed over comes with a parse of it. */
  ghost predicate ParsedEach(v: Variant, version: Version, parsed: seq<(Outcome, Message)>, handed: seq<Data>) {
    |parsed| == |handed| && forall i :: 0 <= i < |handed| ==> ParsedAfresh(v, version, parsed[i], handed[i])
  }

  lemma ParsedOneMore(v: Variant, version: Version, parsed: seq<(Outcome, Message)>, handed: seq<Data>,
                      result: (Outcome, Message), binMsg: Data)
    requires ParsedEach(v, version, parsed, handed) && ParsedAfresh(v, version, result, binMsg)
    ensures ParsedEach(v, version, parsed + [result], handed + [binMsg])
  {
  }

  class NmqttSession {
    var listen: bool

    constructor ()
      ensures listen
    {
      listen := true;
    }

    method Stop()
      modifies this
      ensures !listen
    {
      listen := false;
    }

    /** `NmqttSession::run` and `NmqttClientListener::run`, with the messages they hand to the dispatcher, what parsing
        made of them, and the number of bytes they warn about and throw away. */
    method Run(socket: Socket)
      returns (handed: seq<Data>, parsed: seq<(Outcome, Message)>, lost: nat, ending: Ending, ghost apart: seq<bool>)
      requires listen
      modifies socket
      ensures ending.PeerClosed? ==> socket.pending == []
      ensures exists stale: Data ::
                |stale| == 5 && LiteralRun(old(socket.pending), stale, apart) == (handed, lost, ending)
      ensures ParsedEach(AsWritten, V4, parsed, handed)
    {
      var headerBuff := new byte[5];
      ghost var stale := headerBuff[..];
      handed, parsed, lost, ending, apart := Listen(socket, headerBuff);
      assert LiteralRun(old(socket.pending), stale, apart) == (handed, lost, ending);
    }

    /** The loop. */
    method Listen(socket: Socket, headerBuff: array<byte>)
      returns (handed: seq<Data>, parsed: seq<(Outcome, Message)>, lost: nat, ending: Ending, ghost apart: seq<bool>)
      requires listen && headerBuff.Length == 5
      modifies socket, headerBuff
      ensures ending.PeerClosed? ==> socket.pending == []
      ensures LiteralRun(old(socket.pending), old(headerBuff[..]), apart) == (handed, lost, ending)
      ensures ParsedEach(AsWritten, V4, parsed, handed)
    {
      ghost var stream, stale := socket.pending, headerBuff[..];
      handed, parsed, lost, ending, apart := [], [], 0, PeerClosed, [];
      StartSoFar(stream, stale);
      assert ParsedEach(AsWritten, V4, parsed, handed);
      hide SoFar, LiteralRun, LiteralRead, Taken, ParsedAfresh, ParsedEach, Returns;
      while listen
        invariant SoFar(stream, stale, apart, socket.pending, headerBuff[..], handed, lost)
        invariant ParsedEach(AsWritten, V4, parsed, handed)
        decreases |socket.pending|
      {
        ghost var pending, buff := socket.pending, headerBuff[..];
        var r := ReceiveMessage(socket, headerBuff);
        match r {
          case Closed => break;
          case Short =>
            ShortSoFar(stream, stale, apart, pending, buff, handed, lost);
            lost, apart := lost + 1, apart + [true];
          case Packet(binMsg) =>
            var result := Parse(binMsg);
            if !result.0.Returned? {
              FailSoFar(stream, stale, apart, pending, buff, handed, lost);
              apart, ending := apart + [false], ParseFailed;
              return;
            }
            PacketSoFar(stream, stale, apart, pending, buff, handed, lost);
            ParsedOneMore(AsWritten, V4, parsed, handed, result, binMsg);
            handed, parsed, apart := handed + [binMsg], parsed + [result], apart + [false];
        }
      }
      EndSoFar(stream, stale, apart, headerBuff[..], handed, lost);
    }

    /** `parseMessage` into an object of its own. */
    method Parse(binMsg: Data) returns (result: (Outcome, Message))
      ensures ParsedAfresh(AsWritten, V4, result, binMsg)
      ensures result.0.Returned? <==> Returns(AsWritten, V4, binMsg)
    {
      var msg := new NmqttMessage();
      ghost var blank := msg.Value();
      var outcome := msg.ParseMessage(binMsg);
      result := (outcome, msg.Value());
      ReturnsExactly(AsWritten, blank, binMsg);
      assert result == Parsed(AsWritten, blank, binMsg);
    }

    method ReceiveMessage(socket: Socket, headerBuff: array<byte>) returns (r: Received)
      requires headerBuff.Length == 5
      modifies socket, headerBuff
      ensures r.Closed? <==> old(socket.pending) == []
      ensures r.Closed? ==> socket.pending == []
      ensures r.Short? ==>
        && socket.pending == old(socket.pending)[1..]
        && headerBuff[..] == [old(socket.pending)[0]] + old(headerBuff[..])[1..]
      ensures r.Packet? ==> |old(socket.pending)| >= 2
      ensures r.Packet? ==>
        (r.binMsg, socket.pending, headerBuff[..]) == LiteralRead(old(socket.pending), old(headerBuff[..]))
      ensures r.Packet? ==> Taken(old(socket.pending), old(headerBuff[..]), r.binMsg, socket.pending, headerBuff[..])
    {
      ghost var stream, buff := socket.pending, headerBuff[..];
      var received := socket.ReceiveBytes(2);
      if |received| == 0 {
        return Closed;
      }
      headerBuff[0] := received[0];
      if |received| < 2 {
        assert headerBuff[..] == [stream[0]] + buff[1..];
        return Short;
      }
      headerBuff[1] := received[1];
      assert headerBuff[..] == stream[..2] + buff[2..];

      var msglen: uint32, idx: int := 0, 0;
      var code: int;
      code, msglen, idx := ParseHeader(headerBuff[..], 5, msglen, idx);
      ScanInRange(headerBuff[..], 5, 0, 0);
      assert code != MORE_NEEDED;  // the loop around the scan never repeats

      var binMsg: Data := [];
      assert socket.pending == stream[2..];
      if msglen > 0 {
        var body := ReadBody(socket, msglen);
        binMsg := binMsg + headerBuff[..idx];
        binMsg := binMsg + body;
        assert binMsg == headerBuff[..idx] + body;
      } else {
        binMsg := binMsg + headerBuff[..idx];
        assert binMsg == headerBuff[..idx] + stream[2..][..0] && stream[2..] == stream[2..][0..];
      }
      assert headerBuff[..] == stream[..2] + buff[2..];
      RoundTakes(stream, buff);
      return Packet(binMsg);
    }

    /** The rest of a message: a first receive, and more of them until nothing is unread. */
    method ReadBody(socket: Socket, msglen: nat) returns (body: Data)
      requires msglen > 0
      modifies socket
      ensures var p := old(socket.pending);
              var take := if msglen < |p| then msglen else |p|;
              body == p[..take] && socket.pending == p[take..]
    {
      ghost var stream := socket.pending;
      var received := socket.ReceiveBytes(msglen);
      body := received;
      if |received| != msglen {
        var unread := msglen - |received|;
        while true
          invariant body + socket.pending == stream
          invariant |body| + unread == msglen && unread > 0
          decreases unread
        {
          received := socket.ReceiveBytes(unread);
          assert body + received + socket.pending == stream;
          if |received| == 0 {
            break;
          } else if |received| != unread {
            body := body + received;
            unread := unread - |received|;
            continue;
          }
          body := body + received;
          break;
        }
      }
      assert stream[..|body|] == body && stream[|body|..] == socket.pending;
    }
  }

  // ---------------------------------------------------------------- what comes off the stream

  /** How many bytes of a message are its header: up to the first length byte that does not continue, five at most. */
  function HeaderSize(m: Data): (h: nat)
    ensures 2 <= h <= 5
  {
    if |m| < 3 || m[1] < 0x80 then 2 else if |m| < 4 || m[2] < 0x80 then 3 else if |m| < 5 || m[3] < 0x80 then 4 else 5
  }

  /** All four length bytes continue. */
  predicate Corrupt(m: Data) {
    |m| >= 5 && m[1] >= 0x80 && m[2] >= 0x80 && m[3] >= 0x80 && m[4] >= 0x80
  }

  /** A control packet of which the end is missing. */
  predicate CutShort(m: Data) {
    |m| >= 2 &&
    var (length, count) := DecodeBytes(m[1..]);
    count <= 4 && |m| < 1 + count + length
  }

  /** The bytes of a message that came off the stream: all but the rest of its header, which was in the buffer. */
  function OffStream(m: Data): Data
    requires HeaderSize(m) <= |m|
  {
    m[..2] + m[HeaderSize(m)..]
  }

  /** The message of a round: two bytes off the stream, the rest of the header out of the buffer, and off the stream as
      many bytes as make it a control packet, or all there are. A header that is no header gets no more bytes. */
  ghost predicate Taken(pending: Data, buff: Data, m: Data, rest: Data, header: Data) {
    && |pending| >= 2 && |buff| == 5 && header == pending[..2] + buff[2..]
    && HeaderSize(m) <= |m| && m[..HeaderSize(m)] == header[..HeaderSize(m)]
    && OffStream(m) + rest == pending
    && (if Corrupt(header) then m == header else IsFrame(m) || (rest == [] && CutShort(m)))
  }

  lemma RoundTakes(pending: Data, buff: Data)
    requires |pending| >= 2 && |buff| == 5
    ensures var (m, rest, header) := LiteralRead(pending, buff); Taken(pending, buff, m, rest, header)
  {
    var header := pending[..2] + buff[2..];
    var (m, rest, _) := LiteralRead(pending, buff);
    var scan := ScanOf(header, 5, 0, 0);
    Leading(header[1..5]);
    ScanInRange(header, 5, 0, 0);
    assert forall i :: 0 <= i < 4 ==> header[1..5][i] == header[i + 1];
    assert forall i :: 0 <= i < scan.idx ==> m[i] == header[i];
    assert HeaderSize(m) == scan.idx;
    assert m[scan.idx..] + rest == pending[2..];
    assert m[..2] == pending[..2];
    if !Corrupt(header) {
      HeaderDecides(header, m, scan.idx);
    }
  }

  /** The length that a message declares is the one of its header. */
  lemma HeaderDecides(header: Data, m: Data, idx: nat)
    requires |header| == 5 && 2 <= idx <= 5 && idx <= |m| && m[..idx] == header[..idx]
    requires DecodeBytes(header[1..5]).1 == idx - 1
    ensures DecodeBytes(m[1..]) == DecodeBytes(header[1..5])
  {
    var k := idx - 1;
    DecodePrefix(header[1..5], k);
    assert m[1..][..k] == m[..idx][1..] == header[..idx][1..] == header[1..5][..k];
    DecodeIgnoresTail(m[1..][..k], m[1..][k..]);
    assert m[1..] == m[1..][..k] + m[1..][k..];
  }

  /** A message as a run hands it over: the rest of its header out of the buffer as it was at the start of the run, and
      a control packet, unless its header is no header or it is the last one and the peer has closed within it. */
  ghost predicate AsRead(m: Data, buff: Data, last: bool)
    requires |buff| == 5
  {
    && HeaderSize(m) <= |m| && m[2..HeaderSize(m)] == buff[2..HeaderSize(m)]
    && (IsFrame(m) || (Corrupt(m) && |m| == 5) || (last && CutShort(m)))
  }

  function OffStreams(msgs: seq<Data>): (parts: seq<Data>)
    ensures |parts| == |msgs|
  {
    if msgs == [] then []
    else [if HeaderSize(msgs[0]) <= |msgs[0]| then OffStream(msgs[0]) else msgs[0]] + OffStreams(msgs[1..])
  }

  /** Everything a run takes off the stream is in its messages, in order, or thrown away: when the peer ends the run,
      their sizes add up to the stream's, and when nothing is thrown away, they make up the stream. */
  lemma {:induction false} RunTakes(pending: Data, buff: Data, apart: seq<bool>)
    requires |buff| == 5
    ensures var (msgs, lost, ending) := LiteralRun(pending, buff, apart);
            && |Concat(OffStreams(msgs))| + lost <= |pending|
            && (ending.PeerClosed? ==> |Concat(OffStreams(msgs))| + lost == |pending|)
            && (lost == 0 ==> Concat(OffStreams(msgs)) <= pending)
    decreases |pending|
  {
    hide Returns, LiteralRead, IsFrame, Corrupt, CutShort, HeaderSize, OffStreams, Concat;
    NothingTaken();
    if pending == [] {
    } else if |pending| == 1 || (apart != [] && apart[0]) {
      RunTakes(pending[1..], [pending[0]] + buff[1..], Later(apart));
    } else {
      var (m, rest, header) := LiteralRead(pending, buff);
      RoundTakes(pending, buff);
      if Returns(AsWritten, V4, m) {
        RunTakes(rest, header, Later(apart));
        var more := LiteralRun(rest, header, Later(apart)).0;
        FirstTaken(pending, buff, m, rest, header, more);
      }
    }
  }

  lemma NothingTaken()
    ensures Concat(OffStreams([])) == []
  {
  }

  ghost predicate AllAsRead(msgs: seq<Data>, ending: Ending, buff: Data)
    requires |buff| == 5
  {
    forall i :: 0 <= i < |msgs| ==> AsRead(msgs[i], buff, i == |msgs| - 1 && ending.PeerClosed?)
  }

  /** And every message of a run is as it should be, but for what lay in the buffer. */
  lemma {:induction false} RunReads(pending: Data, buff: Data, apart: seq<bool>)
    requires |buff| == 5
    ensures var (msgs, _, ending) := LiteralRun(pending, buff, apart); AllAsRead(msgs, ending, buff)
    decreases |pending|
  {
    hide Returns, LiteralRead, AsRead, AllAsRead;
    NoneRead(buff);
    if pending == [] {
    } else if |pending| == 1 || (apart != [] && apart[0]) {
      var later := [pending[0]] + buff[1..];
      RunReads(pending[1..], later, Later(apart));
      var (more, _, ending) := LiteralRun(pending[1..], later, Later(apart));
      RestAsRead(later, buff, more, ending);
    } else {
      var (m, rest, header) := LiteralRead(pending, buff);
      RoundTakes(pending, buff);
      if Returns(AsWritten, V4, m) {
        RunReads(rest, header, Later(apart));
        var (more, _, ending) := LiteralRun(rest, header, Later(apart));
        RestAsRead(header, buff, more, ending);
        FirstAsRead(pending, buff, m, rest, more, ending);
      }
    }
  }

  lemma NoneRead(buff: Data)
    requires |buff| == 5
    ensures AllAsRead([], PeerClosed, buff) && AllAsRead([], ParseFailed, buff)
  {
  }

  /** What lies in the buffer from its third byte on stays there. */
  lemma RestAsRead(later: Data, buff: Data, msgs: seq<Data>, ending: Ending)
    requires |later| == |buff| == 5 && later[2..] == buff[2..]
    requires AllAsRead(msgs, ending, later)
    ensures AllAsRead(msgs, ending, buff)
  {
    hide IsFrame, Corrupt, CutShort, HeaderSize;
    forall h | 2 <= h <= 5 ensures later[2..h] == buff[2..h] {
      assert later[2..][..h - 2] == buff[2..][..h - 2];
    }
  }

  lemma FirstAsRead(pending: Data, buff: Data, m: Data, rest: Data, more: seq<Data>, ending: Ending)
    requires |pending| >= 2 && |buff| == 5 && LiteralRead(pending, buff).0 == m && LiteralRead(pending, buff).1 == rest
    requires AllAsRead(more, ending, buff) && (rest == [] ==> more == [] && ending == PeerClosed)
    ensures AllAsRead([m] + more, ending, buff)
  {
    RoundTakes(pending, buff);
    FirstTaken(pending, buff, m, rest, LiteralRead(pending, buff).2, []);
    hide LiteralRead, Taken, IsFrame, Corrupt, CutShort, HeaderSize;
    var msgs := [m] + more;
    forall i | 0 <= i < |msgs| ensures AsRead(msgs[i], buff, i == |msgs| - 1 && ending.PeerClosed?) {
      if i > 0 {
        assert msgs[i] == more[i - 1];
      }
    }
  }

  lemma FirstTaken(pending: Data, buff: Data, m: Data, rest: Data, header: Data, more: seq<Data>)
    requires Taken(pending, buff, m, rest, header)
    ensures Concat(OffStreams([m] + more)) == OffStream(m) + Concat(OffStreams(more))
    ensures HeaderSize(m) <= |m| && m[2..HeaderSize(m)] == buff[2..HeaderSize(m)]
    ensures IsFrame(m) || (Corrupt(m) && |m| == 5) || (rest == [] && CutShort(m))
  {
    hide IsFrame, CutShort;
    assert ([m] + more)[1..] == more;
    var h := HeaderSize(m);
    assert m[2..h] == m[..h][2..] == header[..h][2..] == buff[2..h];
    assert OffStreams([m] + more)[1..] == OffStreams(more);
  }

  // ---------------------------------------------------------------- which streams the loop reads right

  /** A frame whose length takes one byte. */
  predicate Small(f: Data) {
    |f| >= 2 && f[1] < 128
  }

  /** The round reads a frame with a one byte length, whatever follows it and whatever lies in the buffer. */
  lemma SmallFrameRead(f: Data, tail: Data, buff: Data)
    requires IsFrame(f) && Small(f) && |buff| == 5
    ensures LiteralRead(f + tail, buff).0 == f && LiteralRead(f + tail, buff).1 == tail
  {
  }

  /** In a run that the peer ends, messages put together are never shorter than what was taken off the stream for them,
      and of the same total size only when every header had a one byte length. */
  lemma {:induction false} SizesOfRun(pending: Data, buff: Data, apart: seq<bool>)
    requires |buff| == 5 && LiteralRun(pending, buff, apart).2 == PeerClosed
    ensures var (msgs, lost, _) := LiteralRun(pending, buff, apart);
            && |Concat(msgs)| + lost >= |pending|
            && (|Concat(msgs)| + lost == |pending| ==> forall m :: m in msgs ==> Small(m))
    decreases |pending|
  {
    hide Returns;
    if pending == [] {
    } else if |pending| == 1 || (apart != [] && apart[0]) {
      SizesOfRun(pending[1..], [pending[0]] + buff[1..], Later(apart));
    } else {
      var (binMsg, rest, header) := LiteralRead(pending, buff);
      ScanInRange(header, 5, 0, 0);
      SizesOfRun(rest, header, Later(apart));
      var more := LiteralRun(rest, header, Later(apart)).0;
      assert ([binMsg] + more)[1..] == more;
      assert binMsg[1] == header[1];
    }
  }

  /** How many of the first entries are true. */
  function Trues(apart: seq<bool>, upTo: nat): nat
    decreases upTo
  {
    if apart == [] || upTo == 0 then 0 else (if apart[0] then 1 else 0) + Trues(apart[1..], upTo - 1)
  }

  /** Each round gives a message or loses a byte, but for the one whose parse ends the run. It loses one exactly where
      the header bytes come apart, but for a last byte that comes alone in any case. */
  lemma {:induction false} LostBytes(pending: Data, buff: Data, apart: seq<bool>)
    requires |buff| == 5
    ensures var (msgs, lost, _) := LiteralRun(pending, buff, apart);
            var split := Trues(apart, |msgs| + lost);
            split <= lost <= split + 1
    decreases |pending|
  {
    hide LiteralRead, Returns;
    if pending == [] {
    } else if |pending| == 1 || (apart != [] && apart[0]) {
      LostBytes(pending[1..], [pending[0]] + buff[1..], Later(apart));
    } else {
      var (binMsg, rest, header) := LiteralRead(pending, buff);
      if Returns(AsWritten, V4, binMsg) {
        LostBytes(rest, header, Later(apart));
      }
    }
  }

  lemma {:induction false} NoTrues(apart: seq<bool>, upTo: nat)
    ensures Trues(apart, upTo) == 0 <==> forall i :: 0 <= i < |apart| && i < upTo ==> !apart[i]
    decreases upTo
  {
    if apart == [] || upTo == 0 {
    } else {
      NoTrues(apart[1..], upTo - 1);
      assert forall i :: 0 < i < |apart| ==> apart[i] == apart[1..][i - 1];
    }
  }

  lemma {:induction false} SmallFramesRead(frames: seq<Data>, buff: Data, apart: seq<bool>)
    requires |buff| == 5 && forall f :: f in frames ==> IsFrame(f) && Small(f)
    requires forall i :: 0 <= i < |apart| && i < |frames| ==> !apart[i]
    ensures var handed := Parsable(AsWritten, V4, frames);
            LiteralRun(Concat(frames), buff, apart)
            == (handed, 0, if handed == frames then PeerClosed else ParseFailed)
  {
    hide Returns;
    if frames == [] {
    } else {
      var tail := Concat(frames[1..]);
      SmallFrameRead(frames[0], tail, buff);
      assert forall i :: 0 <= i < |Later(apart)| ==> Later(apart)[i] == apart[i + 1];
      SmallFramesRead(frames[1..], LiteralRead(frames[0] + tail, buff).2, Later(apart));
      assert [frames[0]] + frames[1..] == frames;
    }
  }

  /** Over a stream of frames, the loop as written hands over exactly those frames and throws nothing away until the peer
      closes, if and only if each of them has a one byte length, none of their headers comes apart, and every one's
      parse returns: then no stale byte of the buffer and no fragmentation of a body matters. */
  lemma RunReadsExactly(frames: seq<Data>, buff: Data, apart: seq<bool>)
    requires |buff| == 5 && forall f :: f in frames ==> IsFrame(f)
    ensures LiteralRun(Concat(frames), buff, apart) == (frames, 0, PeerClosed)
       <==> && (forall f :: f in frames ==> Small(f) && Returns(AsWritten, V4, f))
            && forall i :: 0 <= i < |apart| && i < |frames| ==> !apart[i]
  {
    hide LiteralRun, IsFrame, Concat, Small, Returns, Parsable;
    AllParsable(AsWritten, V4, frames);
    if LiteralRun(Concat(frames), buff, apart) == (frames, 0, PeerClosed) {
      ReadRight(frames, buff, apart);
      SmallFramesRead(frames, buff, apart);
    } else if (forall f :: f in frames ==> Small(f)) && forall i :: 0 <= i < |apart| && i < |frames| ==> !apart[i] {
      SmallFramesRead(frames, buff, apart);
    }
  }

  lemma ReadRight(frames: seq<Data>, buff: Data, apart: seq<bool>)
    requires |buff| == 5 && LiteralRun(Concat(frames), buff, apart) == (frames, 0, PeerClosed)
    ensures forall f :: f in frames ==> Small(f)
    ensures forall i :: 0 <= i < |apart| && i < |frames| ==> !apart[i]
  {
    hide LiteralRun, Concat, Small, Trues;
    SizesOfRun(Concat(frames), buff, apart);
    LostBytes(Concat(frames), buff, apart);
    NoTrues(apart, |frames|);
  }

  /** A PUBLISH of four bytes that announces a topic of 0xFFFF, and a PINGREQ after it: two small frames, and the run
      ends without handing over either. */
  lemma ParseEndsRun(buff: Data)
    requires |buff| == 5
    ensures var frames: seq<Data> := [[0x30, 0x02, 0xFF, 0xFF], [0xC0, 0x00]];
            && (forall f :: f in frames ==> IsFrame(f) && Small(f))
            && LiteralRun(Concat(frames), buff, []) == ([], 0, ParseFailed)
  {
    var f: Data, g: Data := [0x30, 0x02, 0xFF, 0xFF], [0xC0, 0x00];
    assert f[1..] == [0x02, 0xFF, 0xFF] && g[1..] == [0x00];
    assert DecodeBytes(f[1..]) == (2, 1) && DecodeBytes(g[1..]) == (0, 1);
    ShortLengthRead(f);
    assert !Returns(AsWritten, V4, f);
    hide Returns, LiteralRun;
    SmallFramesRead([f, g], buff, []);
  }

  // ---------------------------------------------------------------- the loop its comments ask for

  const CLEAN: Data := [0, 0, 0, 0, 0]

  /** What has been scanned of a header stays true of the whole stream. */
  lemma ScanExtends(header: Data, stream: Data)
    requires 2 <= |header| <= 5 && header <= stream
    ensures var scan := HeaderAt(header, CLEAN);
            && (scan.code == COMPLETE || scan.code == CORRUPT || scan.code == MORE_NEEDED)
            && (scan.code == COMPLETE ==>
                  HeaderAt(stream, CLEAN) == scan && 2 <= scan.idx <= |header| && header[scan.idx - 1] < 128)
            && (scan.code == CORRUPT ==> HeaderAt(stream, CLEAN).code == CORRUPT)
            && (scan.code == MORE_NEEDED ==> |header| < 5 && forall i :: 1 <= i < |header| ==> header[i] >= 128)
  {
    var scan := HeaderAt(header, CLEAN);
    var b, c := Window(header, CLEAN), Window(stream, CLEAN);
    MoreBytesCompleteTheHeader(b, |header|, 0, 0);
    Leading(b[1..5]);
    assert forall i :: 0 <= i < |header| ==> b[i] == header[i];
    if scan.code == COMPLETE {
      assert b[..scan.idx] == header[..scan.idx] == stream[..scan.idx] == c[..scan.idx];
      IgnoresBytesPastIndex(b, c, |header|, if |stream| < 5 then |stream| else 5, 0, 0);
    } else if scan.code == CORRUPT {
      assert |header| == 5 ==> b == c;
      FullBuffer(b, 5, 0, 0);
    }
  }

  lemma NoHeader(stream: Data)
    requires |stream| < 2
    ensures HeaderAt(stream, CLEAN).code == CORRUPT
  {
  }

  /** Receiving a header to its end, a byte at a time where the scanner asks for more. */
  method ReceiveHeader(socket: Socket) returns (complete: bool, header: Data, msglen: uint32)
    modifies socket
    ensures header + socket.pending == old(socket.pending)
    ensures var scan := HeaderAt(old(socket.pending), CLEAN);
            && (complete <==> scan.code == COMPLETE)
            && (complete ==> scan.msglen == msglen && scan.idx == |header| >= 2)
  {
    hide ScanOf, DecodeBytes;
    ghost var stream := socket.pending;
    msglen := 0;
    header := socket.ReceiveBytes(2);
    if 0 < |header| < 2 {
      var second := socket.ReceiveBytes(1);
      assert stream == header + second + socket.pending;
      header := header + second;
    }
    if |header| < 2 {
      assert header == stream;
      NoHeader(stream);
      return false, header, 0;
    }

    var code, idx;
    code, msglen, idx := ParseHeader(Window(header, CLEAN), |header|, 0, 0);
    ScanExtends(header, stream);
    while code == MORE_NEEDED
      invariant 2 <= |header| <= 5 && header + socket.pending == stream
      invariant Scan(code, msglen, idx) == HeaderAt(header, CLEAN)
      invariant code == MORE_NEEDED ==> |header| < 5
      invariant code == COMPLETE ==> idx == |header|
      decreases 5 - |header|
    {
      var next := socket.ReceiveBytes(1);
      if |next| == 0 {
        assert header == stream;
        return false, header, 0;
      }
      ScanExtends(header, stream);
      ghost var shorter := header;
      assert stream == header + next + socket.pending;
      header := header + next;
      code, msglen, idx := ParseHeader(Window(header, CLEAN), |header|, 0, 0);
      ScanExtends(header, stream);
      assert forall i :: 0 <= i < |shorter| ==> header[i] == shorter[i];
    }
    ScanExtends(header, stream);
    complete := code == COMPLETE;
  }

  /** A round that reads the header to its end before it reads the body. Anything but a whole frame ends the run. */
  method ReceiveFrame(socket: Socket) returns (r: Received)
    modifies socket
    ensures var stream := old(socket.pending);
            var scan := HeaderAt(stream, CLEAN);
            if scan.code == COMPLETE && scan.idx + scan.msglen <= |stream| then
              && r == Packet(stream[..scan.idx + scan.msglen])
              && socket.pending == stream[scan.idx + scan.msglen..]
              && scan.idx + scan.msglen >= 2
            else
              r == Closed
  {
    hide HeaderAt;
    ghost var stream := socket.pending;
    var complete, header, msglen := ReceiveHeader(socket);
    if !complete {
      return Closed;
    }
    ghost var p := socket.pending;
    var body: Data := [];
    if msglen > 0 {
      body := ReadWhole(socket, msglen);
    }
    if |body| < msglen {
      return Closed;
    }
    assert stream == header + p && p == body + socket.pending;
    assert stream == (header + body) + socket.pending;
    return Packet(header + body);
  }

  /** The receive loop of the body, outside the class. */
  method ReadWhole(socket: Socket, msglen: nat) returns (body: Data)
    requires msglen > 0
    modifies socket
    ensures var p := old(socket.pending);
            var take := if msglen < |p| then msglen else |p|;
            body == p[..take] && socket.pending == p[take..]
  {
    var session := new NmqttSession();
    body := session.ReadBody(socket, msglen);
  }

  /** The frames of a stream up to the first one whose parse does not return. */
  function WholeRun(stream: Data, v: Variant, version: Version): seq<Data> {
    Parsable(v, version, Split(stream, CLEAN).0)
  }

  /** One more frame of the stream, or no more. */
  lemma WholeStep(stream: Data, v: Variant, version: Version, handed: seq<Data>)
    ensures var scan := HeaderAt(stream, CLEAN);
            var size := scan.idx + scan.msglen;
            if scan.code == COMPLETE && size <= |stream| && Returns(v, version, stream[..size])
            then handed + WholeRun(stream, v, version) == handed + [stream[..size]] + WholeRun(stream[size..], v, version)
            else handed + WholeRun(stream, v, version) == handed
  {
    hide Split, HeaderAt, Returns, Parsable;
    SplitStep(stream, CLEAN);
    var scan := HeaderAt(stream, CLEAN);
    var size := scan.idx + scan.msglen;
    if scan.code == COMPLETE && size <= |stream| {
      ParsableFirst(v, version, stream[..size], Split(stream[size..], CLEAN).0);
    } else {
      NothingParsable(v, version);
    }
  }

  lemma NothingParsable(v: Variant, version: Version)
    ensures Parsable(v, version, []) == []
  {
  }

  /** A run that keeps every packet, however the stream is cut: headers, length fields and bodies alike. It, too, parses
      each packet, by the code or its repaired variant, before it hands it over, and ends at the first one whose parse
      does not return. */
  method RunWhole(socket: Socket, v: Variant, version: Version)
    returns (handed: seq<Data>, parsed: seq<(Outcome, Message)>)
    modifies socket
    ensures handed == WholeRun(old(socket.pending), v, version)
    ensures ParsedEach(v, version, parsed, handed)
  {
    ghost var stream := socket.pending;
    handed, parsed := [], [];
    assert ParsedEach(v, version, parsed, handed);
    hide WholeRun, Returns, ParsedAfresh, ParsedEach;
    var open := true;
    assert handed + WholeRun(stream, v, version) == WholeRun(stream, v, version);
    while open
      invariant WholeRun(stream, v, version) == if open then handed + WholeRun(socket.pending, v, version) else handed
      invariant ParsedEach(v, version, parsed, handed)
      decreases open, |socket.pending|
    {
      var next := NextParsed(socket, v, version, handed);
      match next {
        case OneMessage(binMsg, result) =>
          ParsedOneMore(v, version, parsed, handed, result, binMsg);
          handed, parsed := handed + [binMsg], parsed + [result];
        case NoMessage =>
          open := false;
      }
    }
  }

  datatype Next = NoMessage | OneMessage(binMsg: Data, result: (Outcome, Message))

  /** A round: a packet whose parse returns, or the end. */
  method NextParsed(socket: Socket, v: Variant, version: Version, ghost handed: seq<Data>) returns (next: Next)
    modifies socket
    ensures next.OneMessage? ==>
      ParsedAfresh(v, version, next.result, next.binMsg) && |socket.pending| < |old(socket.pending)|
    ensures handed + WholeRun(old(socket.pending), v, version)
            == if next.OneMessage? then handed + [next.binMsg] + WholeRun(socket.pending, v, version) else handed
  {
    hide WholeRun, HeaderAt, Returns, ParsedAfresh;
    WholeStep(socket.pending, v, version, handed);
    next := NoMessage;
    var r := ReceiveFrame(socket);
    if r.Packet? {
      var result := ParseBy(v, version, r.binMsg);
      if result.0.Returned? {
        next := OneMessage(r.binMsg, result);
      }
    }
  }

  /** A parse into a fresh object of a version, by either variant. */
  method ParseBy(v: Variant, version: Version, binMsg: Data) returns (result: (Outcome, Message))
    ensures ParsedAfresh(v, version, result, binMsg)
    ensures result.0.Returned? <==> Returns(v, version, binMsg)
  {
    var msg := new NmqttMessage();
    var blank := msg.Value().(version := version);
    result := Parsed(v, blank, binMsg);
    ReturnsExactly(v, blank, binMsg);
  }

  /** So whatever list of packets the peer writes, and however the network cuts them, they arrive as written, up to the
      first one whose parse does not return. */
  method DeliverPackets(frames: seq<Data>, v: Variant, version: Version)
    returns (handed: seq<Data>, parsed: seq<(Outcome, Message)>)
    requires forall f :: f in frames ==> IsFrame(f)
    ensures handed == Parsable(v, version, frames) && ParsedEach(v, version, parsed, handed)
  {
    SplitConcat(frames, CLEAN);
    var socket := new Socket(Concat(frames));
    handed, parsed := RunWhole(socket, v, version);
  }

  /** The loop as written, on packets with one byte lengths: if nothing is thrown away, they arrive as written, up to the
      first one whose parse does not return. */
  method DeliverSmallPackets(frames: seq<Data>)
    returns (handed: seq<Data>, parsed: seq<(Outcome, Message)>, lost: nat)
    requires forall f :: f in frames ==> IsFrame(f) && Small(f)
    ensures lost == 0 ==> handed == Parsable(AsWritten, V4, frames)
    ensures ParsedEach(AsWritten, V4, parsed, handed)
  {
    var socket := new Socket(Concat(frames));
    var session := new NmqttSession();
    var ending;
    ghost var apart;
    handed, parsed, lost, ending, apart := session.Run(socket);
    ghost var stale: Data :| |stale| == 5 && LiteralRun(Concat(frames), stale, apart) == (handed, lost, ending);
    if lost == 0 {
      NothingLost(frames, stale, apart);
    }
  }

  /** A run that throws nothing away has had no header come apart. */
  lemma {:induction false} NothingLost(frames: seq<Data>, buff: Data, apart: seq<bool>)
    requires |buff| == 5 && forall f :: f in frames ==> IsFrame(f) && Small(f)
    requires LiteralRun(Concat(frames), buff, apart).1 == 0
    ensures LiteralRun(Concat(frames), buff, apart).0 == Parsable(AsWritten, V4, frames)
  {
    hide Returns;
    if frames == [] {
    } else {
      var tail := Concat(frames[1..]);
      SmallFrameRead(frames[0], tail, buff);
      if Returns(AsWritten, V4, frames[0]) {
        NothingLost(frames[1..], LiteralRead(frames[0] + tail, buff).2, Later(apart));
      }
    }
  }
}
