/** The fixed header scanner, `NmqttMessage::parseHeader`. It looks for the end of the length field with nested
    tests of the continuation bits, and then decodes the field with `readPackedInt`, a second scan of its own. */
module FixedHeader {
  import opened Bytes
  import opened PackedInt

  /** The return code with the final values of the two reference parameters. */
  datatype Scan = Scan(code: int, msglen: uint32, idx: int)

  const CORRUPT := -1
  const MORE_NEEDED := 0
  const COMPLETE := 1

  /** What the scanner returns, in terms of the standard's decoder. */
  function ScanOf(buff: Data, len: int, msglen: uint32, idx: int): Scan
    requires |buff| >= 5
  {
    var (value, count) := DecodeBytes(buff[1..5]);
    DecodeBytesBounded(buff[1..5]);
    if len < 2 then Scan(CORRUPT, msglen, idx)
    else if len <= count && len < 5 then Scan(MORE_NEEDED, msglen, len)
    else if count == 5 then Scan(CORRUPT, msglen, 5)
    else Scan(COMPLETE, value, count + 1)
  }

  lemma FourByteWord(bs: Data)
    requires |bs| == 4
    ensures LittleEndian(bs) < 0x1_0000_0000
  {
    assert LittleEndian(bs[1..][1..][1..]) < 0x100;
    assert LittleEndian(bs[1..][1..]) < 0x1_0000;
    assert LittleEndian(bs[1..]) < 0x100_0000;
  }

  /** How many leading bytes of the length field are scanned: one more than the run of continuation bits. */
  lemma Leading(bs: Data)
    requires |bs| == 4
    ensures DecodeBytes(bs).1 == (if bs[0] < 128 then 1 else if bs[1] < 128 then 2
                                  else if bs[2] < 128 then 3 else if bs[3] < 128 then 4 else 5)
  {
    DecodeCount(bs);
  }

  /** `NmqttMessage::parseHeader`. It reads four bytes after the first one whatever `len` says, so it needs a
      buffer of five; `idx` and `msglen` are what the reference parameters hold before the call. */
  method ParseHeader(buff: Data, len: int, msglen0: uint32, idx0: int)
    returns (code: int, msglen: uint32, idx: int)
    requires |buff| >= 5
    ensures Scan(code, msglen, idx) == ScanOf(buff, len, msglen0, idx0)
  {
    msglen, idx := msglen0, idx0;
    if len < 2 { return -1, msglen, idx; }
    ghost var field := buff[1..5];
    Leading(field);

    idx := 1;
    idx := idx + 1;
    if buff[idx - 1] >= 128 {
      if len < 3 { return 0, msglen, idx; }
      idx := idx + 1;
      if buff[idx - 1] >= 128 {
        if len < 4 { return 0, msglen, idx; }
        idx := idx + 1;
        if buff[idx - 1] >= 128 {
          if len < 5 { return 0, msglen, idx; }
          idx := idx + 1;
          if buff[idx - 1] >= 128 {
            return -1, msglen, idx;
          }
        }
      }
    }

    ghost var scanned := idx;
    FourByteWord(buff[1..5]);
    DecodedIsDecodeBytes(buff[1..5]);
    var pInt := LittleEndian(buff[1..5]);
    var count, value := ReadPackedInt(pInt);
    msglen, idx := value, count;
    idx := idx + 1;
    assert idx == scanned;  // the two scans agree
    code := 1;
  }

  /** A buffer reported as full never asks for more, and is refused exactly when all four length bytes continue. */
  lemma FullBuffer(buff: Data, len: int, msglen: uint32, idx: int)
    requires |buff| >= 5 && len >= 5
    ensures var r := ScanOf(buff, len, msglen, idx);
            && r.code != MORE_NEEDED
            && (r.code == CORRUPT <==> forall i :: 1 <= i < 5 ==> buff[i] >= 128)
            && (r.code == CORRUPT ==> r.idx == 5 && r.msglen == msglen)
  {
    var field := buff[1..5];
    Leading(field);
    assert forall i :: 0 <= i < 4 ==> field[i] == buff[i + 1];
  }

  /** A complete header is decided by the bytes before its index alone: anything may follow. */
  lemma IgnoresBytesPastIndex(buff: Data, other: Data, len: int, len': int, msglen: uint32, idx: int)
    requires |buff| >= 5 && |other| >= 5
    requires var r := ScanOf(buff, len, msglen, idx);
             r.code == COMPLETE && buff[..r.idx] == other[..r.idx] && len' >= r.idx
    ensures ScanOf(other, len', msglen, idx) == ScanOf(buff, len, msglen, idx)
  {
    var r := ScanOf(buff, len, msglen, idx);
    var k := r.idx - 1;
    assert other[1..5][..k] == buff[1..5][..k] by {
      assert other[1..5][..k] == other[..r.idx][1..];
      assert buff[1..5][..k] == buff[..r.idx][1..];
    }
    DecodePrefix(buff[1..5], k);
    var field := other[1..5];
    assert field == field[..k] + field[k..];
    DecodeIgnoresTail(field[..k], field[k..]);
  }

  /** With fewer bytes than a complete header has, the answer is to wait for more, and then the answer is the
      same however the bytes arrived: more of the same buffer turns 0 into the final answer. */
  lemma MoreBytesCompleteTheHeader(buff: Data, len: int, msglen: uint32, idx: int)
    requires |buff| >= 5 && 2 <= len <= 5
    ensures ScanOf(buff, len, msglen, idx).code == MORE_NEEDED
       <==> len < 5 && forall i :: 1 <= i < len ==> buff[i] >= 128
    ensures ScanOf(buff, len, msglen, idx).code != MORE_NEEDED
       ==> ScanOf(buff, len, msglen, idx) == ScanOf(buff, 5, msglen, idx)
  {
    var field := buff[1..5];
    Leading(field);
    assert forall i :: 0 <= i < 4 ==> field[i] == buff[i + 1];
    if forall i :: 1 <= i < len ==> buff[i] >= 128 {
      assert buff[1] >= 128;
    }
  }

  /** The scanner in terms of the bytes of the buffer. */
  lemma ScanBytes(buff: Data, len: int, msglen: uint32, idx: int)
    requires |buff| >= 5
    ensures var b1, b2, b3, b4 := buff[1] as int, buff[2] as int, buff[3] as int, buff[4] as int;
            ScanOf(buff, len, msglen, idx)
            == if len < 2 then Scan(-1, msglen, idx)
               else if b1 < 128 then Scan(1, b1, 2)
               else if len < 3 then Scan(0, msglen, 2)
               else if b2 < 128 then Scan(1, b1 - 128 + 128 * b2, 3)
               else if len < 4 then Scan(0, msglen, 3)
               else if b3 < 128 then Scan(1, b1 - 128 + 128 * (b2 - 128) + 128 * 128 * b3, 4)
               else if len < 5 then Scan(0, msglen, 4)
               else if b4 < 128 then
                 Scan(1, b1 - 128 + 128 * (b2 - 128) + 128 * 128 * (b3 - 128) + 128 * 128 * 128 * b4, 5)
               else Scan(-1, msglen, 5)
  {
    var bs := buff[1..5];
    Leading(bs);
    var c, d, e := bs[1..], bs[2..], bs[3..];
    assert c[1..] == d && d[1..] == e && e[1..] == [];
    assert DecodeBytes(e) == if bs[3] < 128 then (bs[3] as nat, 1) else (bs[3] - 128, 2);
    assert bs[2] >= 128 ==> DecodeBytes(d).0 == bs[2] - 128 + 128 * DecodeBytes(e).0;
    assert bs[1] >= 128 ==> DecodeBytes(c).0 == bs[1] - 128 + 128 * DecodeBytes(d).0;
  }
}
