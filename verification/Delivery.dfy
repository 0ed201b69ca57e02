/** The codec end to end: messages printed, sent over a socket in whatever pieces, put together and parsed. */
module Delivery {
  import opened Messages
  import opened PublishRoundTrip
  import opened ParseReturns
  import opened Framing
  import opened Session

  lemma ShortIsSmall(v: Variant, m: Message)
    requires |Body(m)| < 128
    ensures IsFrame(Serialized(v, m)) && Small(Serialized(v, m))
  {
    SerializedIsFrame(v, m);
    ShortFrame(v, m);
    hide Body, LengthField, FirstByte;
  }

  /** The parse of a message returns where its contents begin after a length field of the variant. */
  predicate ParseReturnsOn(v: Variant, m: Message) {
    Parses(m, Serialized(v, m), 1 + |LengthField(v, |Body(m)|)|)
  }

  /** The code, for short messages, when no byte is thrown away: what comes through is parsed in order, up to the first
      message whose parse does not return, which is a CONNECT with a will or credentials; and each PUBLISH of version
      3.1.1 before it comes back exactly if its payload is not a single byte. */
  method DeliverShortMessages(ms: seq<Message>) returns (parsed: seq<(Outcome, Message)>, lost: nat)
    requires forall m :: m in ms ==> |Body(m)| < 128
    ensures lost == 0 ==> |parsed| <= |ms| && forall i :: 0 <= i < |parsed| ==> ParseReturnsOn(AsWritten, ms[i])
    ensures lost == 0 && |parsed| < |ms| ==> !ParseReturnsOn(AsWritten, ms[|parsed|])
    ensures lost == 0 ==> forall i :: 0 <= i < |parsed| && ms[i].command.PUBLISH? && ms[i].version.V4? ==>
              (Restored(ms[i], parsed[i]) <==> |ms[i].payload| != 1)
  {
    hide Body, Serialized, LengthField, IsFrame, Small, Parsed, Restored, Returns, Parses, Parsable;
    var frames := SerializeAll(AsWritten, ms);
    forall f | f in frames ensures IsFrame(f) && Small(f) {
      var i :| 0 <= i < |frames| && frames[i] == f;
      assert ms[i] in ms;
      ShortIsSmall(AsWritten, ms[i]);
    }
    var handed;
    handed, parsed, lost := DeliverSmallPackets(frames);
    if lost == 0 {
      forall i | 0 <= i < |ms| ensures Returns(AsWritten, V4, frames[i]) <==> ParseReturnsOn(AsWritten, ms[i]) {
        assert ms[i] in ms;
        ShortReturns(ms[i]);
        ShortFrame(AsWritten, ms[i]);
      }
      forall i | 0 <= i < |parsed| ensures ParseReturnsOn(AsWritten, ms[i]) {
        assert handed[i] == frames[i] && handed[i] in handed;
      }
      forall i | 0 <= i < |parsed| && ms[i].command.PUBLISH? && ms[i].version.V4?
        ensures Restored(ms[i], parsed[i]) <==> |ms[i].payload| != 1
      {
        assert ms[i] in ms && handed[i] == frames[i];
        assert ParsedAfresh(AsWritten, V4, parsed[i], Serialized(AsWritten, ms[i]));
        var blank :| Fresh(blank, V4) && parsed[i] == Parsed(AsWritten, blank, Serialized(AsWritten, ms[i]));
        ComesBackExactly(ms[i], blank);
      }
    }
  }

  /** The repaired printer and parser, and a loop that receives headers to their end: however the stream is cut, every
      packet arrives, up to the first one whose parse does not return, again a CONNECT, as its strings are not repaired;
      and every PUBLISH before it comes back with its QoS. */
  method DeliverMessages(ms: seq<Message>, version: Version) returns (parsed: seq<(Outcome, Message)>)
    requires forall m :: m in ms ==> |Body(m)| < 0x1000_0000 && Understands(version, m)
    requires forall m :: m in ms && m.command.PUBLISH? ==> |m.topic| < 0x1_0000
    ensures |parsed| <= |ms| && forall i :: 0 <= i < |parsed| ==> ParseReturnsOn(Repaired, ms[i])
    ensures |parsed| < |ms| ==> !ParseReturnsOn(Repaired, ms[|parsed|])
    ensures forall i :: 0 <= i < |parsed| && ms[i].command.PUBLISH? && ms[i].version == version ==>
              Restored(ms[i], parsed[i]) && parsed[i].1.qos == ms[i].qos
  {
    hide Body, Serialized, LengthField, IsFrame, Parsed, Restored, Returns, Parses, Parsable, Understands;
    var frames := SerializeAll(Repaired, ms);
    forall f | f in frames ensures IsFrame(f) {
      var i :| 0 <= i < |frames| && frames[i] == f;
      assert ms[i] in ms;
      SerializedIsFrame(Repaired, ms[i]);
    }
    var handed;
    handed, parsed := DeliverPackets(frames, Repaired, version);
    forall i | 0 <= i < |ms| ensures Returns(Repaired, version, frames[i]) <==> ParseReturnsOn(Repaired, ms[i]) {
      assert ms[i] in ms;
      RepairedReturns(ms[i], version);
    }
    forall i | 0 <= i < |parsed| ensures ParseReturnsOn(Repaired, ms[i]) {
      assert handed[i] == frames[i] && handed[i] in handed;
    }
    forall i | 0 <= i < |parsed| && ms[i].command.PUBLISH? && ms[i].version == version
      ensures Restored(ms[i], parsed[i]) && parsed[i].1.qos == ms[i].qos
    {
      assert ms[i] in ms && handed[i] == frames[i];
      assert ParsedAfresh(Repaired, version, parsed[i], Serialized(Repaired, ms[i]));
      var blank :| Fresh(blank, version) && parsed[i] == Parsed(Repaired, blank, Serialized(Repaired, ms[i]));
      RepairedComesBackExactly(ms[i], blank);
    }
  }

  /** Only a CONNECT with a will or credentials can end a run so. */
  lemma OnlyConnectFails(v: Variant, m: Message)
    requires !ParseReturnsOn(v, m)
    ensures m.command == CONNECT && (m.connect.willFlag || m.connect.usernameFlag || m.connect.passwordFlag)
  {
    var idx := 1 + |LengthField(v, |Body(m)|)|;
    if m.command == CONNECT && !m.connect.willFlag && !m.connect.usernameFlag && !m.connect.passwordFlag {
      assert Serialized(v, m)[idx..] == Body(m);
      hide Body, Parses;
      PlainConnectParses(m, Serialized(v, m), idx);
    }
  }

  /** And one does: the client identifier "A", the will topic "t" and the will "w", at QoS 0. */
  lemma WillEndsRun(m: Message)
    requires m.command == CONNECT && m.version.V4? && m.payload == []
    requires m.connect.willFlag && !m.connect.usernameFlag && !m.connect.passwordFlag
    requires m.connect.clientId == [0x41] && m.connect.willTopic == [0x74] && m.connect.will == [0x77]
    ensures |Body(m)| == 19 && !ParseReturnsOn(AsWritten, m)
  {
    WillBody(m);
    ShortFrame(AsWritten, m);
    assert Serialized(AsWritten, m)[2..] == Body(m);
    hide Body, Parses, LengthField;
    ConnectWithWillParses(m, Serialized(AsWritten, m), 2);
  }

  lemma WillBody(m: Message)
    requires m.command == CONNECT && m.version.V4? && m.payload == []
    requires m.connect.willFlag && !m.connect.usernameFlag && !m.connect.passwordFlag
    requires |m.connect.clientId| == 1 && |m.connect.willTopic| == 1 && |m.connect.will| == 1
    ensures |Body(m)| == 19
  {
  }
}
