/** The variable length integers of MQTT (section 2.2.3 of MQTT 3.1.1, section 1.5.5 of MQTT 5.0) as
    `bytebauble.cpp` reads and writes them, one bit at a time. */
module PackedInt {
  import opened Bytes

  // ---------------------------------------------------------------- the standard's own algorithms

  /** The encoder of section 2.2.3 of MQTT 3.1.1: seven bits a byte, low group first, with the top
      bit of a byte set when another one follows. */
  function StandardEncode(n: nat): (bs: Data)
    ensures |bs| > 0
  {
    if n < 128 then [n] else [128 + n % 128] + StandardEncode(n / 128)
  }

  /** The decoder of section 2.2.3 of MQTT 3.1.1 over a byte string: the value, and the number of bytes it takes.
      A string whose bytes all continue is reported as one byte longer than it is. */
  function DecodeBytes(bs: Data): (r: (nat, nat))
    ensures 1 <= r.1 <= |bs| + 1
  {
    if bs == [] then (0, 1)
    else if bs[0] < 128 then (bs[0], 1)
    else
      var (value, count) := DecodeBytes(bs[1..]);
      (bs[0] - 128 + 128 * value, count + 1)
  }

  /** The same decoder over a machine word, low byte first, looking at `groups` bytes at most. */
  function Decoded(word: nat, groups: nat): (r: (nat, nat))
    ensures 1 <= r.1 <= groups + 1
    decreases groups
  {
    if groups == 0 then (0, 1)
    else if word % 256 < 128 then (word % 128, 1)
    else
      var (value, count) := Decoded(word / 256, groups - 1);
      (word % 128 + 128 * value, count + 1)
  }

  /** `n` cut into exactly `k` groups, whatever does not fit being dropped. */
  function PackedBytes(n: nat, k: nat): (bs: Data)
    ensures |bs| == k
  {
    if k == 0 then []
    else if k == 1 then [n % 128]
    else [128 + n % 128] + PackedBytes(n / 128, k - 1)
  }

  /** The machine word that holds those bytes. */
  function PackedWord(n: nat, k: nat): nat {
    if k == 0 then 0
    else if k == 1 then n % 128
    else 128 + n % 128 + 256 * PackedWord(n / 128, k - 1)
  }

  /** Which comparison the writer uses to choose a length. `Literal` is the code, `Strict` the repair. */
  datatype Thresholds = Literal | Strict

  /** How many bytes the writer chooses; 0 is its error return. */
  function LengthBytes(t: Thresholds, n: nat): (k: nat)
    ensures k <= 4
  {
    var slack := if t.Literal? then 1 else 0;
    if n < 0x80 + slack then 1
    else if n < 0x4000 + slack then 2
    else if n < 0x20_0000 + slack then 3
    else if n < 0x1000_0000 + slack then 4
    else 0
  }

  /** The numbers that survive the writer's thresholds. */
  predicate Exact(n: nat) {
    n < 0x1000_0000 && n != 0x80 && n != 0x4000 && n != 0x20_0000
  }

  // ---------------------------------------------------------------- the bit loops

  lemma OneBit(n: nat)
    ensures LowBits(n, 1) == n % 2 && ShiftRight(n, 1) == n / 2 && ShiftLeft(n, 1) == 2 * n
  {
  }

  lemma Halves(n: nat)
    ensures n % 4 == n % 2 + 2 * (n / 2 % 2) && n / 4 == n / 2 / 2
  {
  }

  lemma TwoBits(n: nat)
    ensures LowBits(n, 2) == n % 4 && ShiftRight(n, 2) == n / 4 && ShiftLeft(n, 2) == 4 * n
    ensures LowBits(n, 1) == n % 2 && ShiftRight(n, 1) == n / 2 && ShiftLeft(n, 1) == 2 * n
  {
    assert LowBits(n, 2) == n % 2 + 2 * LowBits(n / 2, 1);
    assert ShiftRight(n, 2) == ShiftRight(n / 2, 1);
    assert ShiftLeft(n, 2) == 2 * ShiftLeft(n, 1);
    hide LowBits, ShiftRight, ShiftLeft;
    OneBit(n);
    OneBit(n / 2);
    Halves(n);
  }

  lemma Quarters(n: nat)
    ensures n % 16 == n % 4 + 4 * (n / 4 % 4) && n / 16 == n / 4 / 4
    ensures n % 8 == n % 4 + 4 * (n / 4 % 2) && n / 8 == n / 4 / 2
  {
    var a, r := n / 4, n % 4;
    Divide16(n, a / 4, r + 4 * (a % 4));
    Divide8(n, a / 2, r + 4 * (a % 2));
  }

  lemma FourBits(n: nat)
    ensures LowBits(n, 4) == n % 16 && ShiftRight(n, 4) == n / 16 && ShiftLeft(n, 4) == 16 * n
    ensures LowBits(n, 3) == n % 8 && ShiftRight(n, 3) == n / 8 && ShiftLeft(n, 3) == 8 * n
  {
    hide LowBits, ShiftRight, ShiftLeft;
    Quarters(n);
    TwoBits(n);
    TwoBits(n / 4);
    TwoBits(4 * n);
    TwoBits(n / 4 % 4);
    TwoBits(n / 4 % 2);
    LowBitsSplit(n, 2, 2);
    LowBitsSplit(n, 2, 1);
    ShiftRightTwice(n, 2, 2);
    ShiftRightTwice(n, 2, 1);
    ShiftLeftTwice(n, 2, 2);
    ShiftLeftTwice(n, 2, 1);
  }

  lemma Nibbles(word: nat, high: nat, top: nat)
    requires word == 16 * high + word % 16 && high == 16 * top + high % 16
    ensures word % 128 == word % 16 + 16 * (high % 8)
    ensures word % 256 == word % 16 + 16 * (high % 16)
    ensures word / 128 == high / 8 && word / 256 == top
    ensures high / 8 % 2 == 1 <==> word % 256 >= 128
  {
    var four := high % 16;
    Divide8(high, if four < 8 then 2 * top else 2 * top + 1, if four < 8 then four else four - 8);
    Divide128(word, high / 8, word % 16 + 16 * (high % 8));
    Divide256(word, top, word % 16 + 16 * four);
  }

  lemma Divide8(n: nat, q: nat, r: nat)
    requires n == 8 * q + r && r < 8
    ensures n / 8 == q && n % 8 == r
  {
  }

  lemma Divide16(n: nat, q: nat, r: nat)
    requires n == 16 * q + r && r < 16
    ensures n / 16 == q && n % 16 == r
  {
  }

  lemma Divide128(n: nat, q: nat, r: nat)
    requires n == 128 * q + r && r < 128
    ensures n / 128 == q && n % 128 == r
  {
  }

  lemma Divide256(n: nat, q: nat, r: nat)
    requires n == 256 * q + r && r < 256
    ensures n / 256 == q && n % 256 == r
  {
  }

  lemma LowGroup(word: nat)
    ensures word % 128 == (word % 256) % 128
  {
    var q, b := word / 256, word % 256;
    if b < 128 {
      Divide128(word, 2 * q, b);
    } else {
      Divide128(word, 2 * q + 1, b - 128);
      Divide128(b, 1, b - 128);
    }
  }

  /** One seven bit group: the low bits of a word, its continuation bit, and what follows. */
  lemma Group(word: nat)
    ensures LowBits(word, 7) == word % 128
    ensures Bit(word, 7) <==> word % 256 >= 128
    ensures ShiftRight(word, 7) == word / 128 && ShiftRight(word, 8) == word / 256
  {
    hide LowBits, ShiftRight, ShiftLeft;
    var high := word / 16;
    Nibbles(word, high, high / 16);
    FourBits(word);
    FourBits(high);
    FourBits(high % 8);
    LowBitsSplit(word, 4, 3);
    ShiftRightTwice(word, 4, 3);
    ShiftRightTwice(word, 4, 4);
  }

  /** Moving a value up by one more group multiplies it by 128. */
  lemma ShiftGroup(n: nat, k: nat)
    ensures ShiftLeft(n, k + 7) == ShiftLeft(128 * n, k)
  {
    hide ShiftLeft;
    ShiftLeftTwice(n, 7, k);
    ShiftLeftTwice(n, 4, 3);
    FourBits(n);
    FourBits(16 * n);
  }

  lemma ZeroShifted(k: nat)
    ensures ShiftLeft(0, k) == 0
  {
  }

  /** Copying bit `j` of a word to place `k + j` extends the copy of its low `j` bits at place `k`. */
  lemma CopyBit(word: nat, j: nat, k: nat, low: nat, out: nat)
    requires low < ShiftLeft(1, k)
    requires out == low + ShiftLeft(LowBits(word, j), k) < ShiftLeft(1, k + j)
    ensures var next := if Bit(word, j) then SetBit(out, k + j) else out;
            next == low + ShiftLeft(LowBits(word, j + 1), k) < ShiftLeft(1, k + j + 1)
  {
    LowBitsStep(word, j);
    NothingAbove(out, k + j);
    ShiftLeftSum(LowBits(word, j), if Bit(word, j) then ShiftLeft(1, j) else 0, k);
    ShiftLeftTwice(1, j, k);
    ZeroShifted(k);
  }

  /** `into` with the seven bits of `from` that start at `src` copied to place `idx`. */
  function Copied(from: nat, src: nat, into: nat, idx: nat): nat {
    into + ShiftLeft(LowBits(ShiftRight(from, src), 7), idx)
  }

  /** The inner loop of both functions. */
  method CopySevenBits(from: nat, src: nat, into: nat, idx: nat) returns (out: nat)
    requires into < ShiftLeft(1, idx)
    ensures out == Copied(from, src, into, idx) < ShiftLeft(1, idx + 7)
  {
    out := into;
    ZeroShifted(idx);
    var j := 0;
    while j < 7
      invariant 0 <= j <= 7
      invariant out == into + ShiftLeft(LowBits(ShiftRight(from, src), j), idx) < ShiftLeft(1, idx + j)
    {
      ShiftRightTwice(from, src, j);
      CopyBit(ShiftRight(from, src), j, idx, into, out);
      if Bit(from, src + j) {
        out := SetBit(out, idx + j);
      }
      j := j + 1;
    }
  }

  /** Before round `i` of the reader: `out` holds the groups read so far, and the answer is what decoding the
      bytes still unread adds to it. */
  ghost predicate Reading(packed: nat, i: nat, out: nat) {
    && i <= 4
    && out < ShiftLeft(1, 7 * i)
    && Decoded(packed, 4).0 == out + ShiftLeft(Decoded(ShiftRight(packed, 8 * i), 4 - i).0, 7 * i)
    && Decoded(packed, 4).1 == i + Decoded(ShiftRight(packed, 8 * i), 4 - i).1
  }

  lemma ReadingStarts(packed: nat)
    ensures Reading(packed, 0, 0)
  {
  }

  lemma ReadingRound(packed: nat, i: nat, low: nat, out: nat)
    requires Reading(packed, i, low) && i < 4
    requires out == Copied(packed, 8 * i, low, 7 * i) < ShiftLeft(1, 7 * i + 7)
    ensures Bit(packed, 8 * i + 7) ==> Reading(packed, i + 1, out)
    ensures !Bit(packed, 8 * i + 7) ==> Decoded(packed, 4) == (out, i + 1)
  {
    hide ShiftLeft, ShiftRight, LowBits;
    var word := ShiftRight(packed, 8 * i);
    Group(word);
    ShiftRightTwice(packed, 8 * i, 7);
    ShiftRightTwice(packed, 8 * i, 8);
    var rest := Decoded(word / 256, 3 - i).0;
    ShiftLeftSum(word % 128, 128 * rest, 7 * i);
    ShiftGroup(rest, 7 * i);
  }

  lemma ReadingEnds(packed: nat, out: nat)
    requires Reading(packed, 4, out)
    ensures Decoded(packed, 4) == (out, 5)
  {
    ZeroShifted(28);
  }

  lemma DecodedBounded(word: nat, groups: nat)
    requires groups <= 4
    ensures Decoded(word, groups).0 < 0x1000_0000
  {
    if groups > 0 {
      var w1 := word / 256;
      assert groups >= 4 ==> Decoded(w1 / 256 / 256, 1).0 < 128;
      assert groups >= 3 ==> Decoded(w1 / 256, groups - 2).0 < 0x20_0000;
    }
  }

  /** `ByteBauble::readPackedInt`. */
  method ReadPackedInt(packed: uint32) returns (count: nat, output: uint32)
    ensures (output, count) == Decoded(packed, 4)
    ensures output < 0x1000_0000
  {
    DecodedBounded(packed, 4);
    ReadingStarts(packed);
    var out: nat, idx, src := 0, 0, 0;
    var i := 0;
    hide Decoded, ShiftLeft, ShiftRight, LowBits;
    while i < 4
      invariant 0 <= i <= 4 && idx == 7 * i && src == 8 * i
      invariant Reading(packed, i, out)
    {
      ghost var low := out;
      out := CopySevenBits(packed, src, out, idx);
      src, idx := src + 7, idx + 7;
      ReadingRound(packed, i, low, out);
      var more := Bit(packed, src);
      src := src + 1;
      if !more {
        return i + 1, out;
      }
      i := i + 1;
    }
    ReadingEnds(packed, out);
    return i + 1, out;
  }

  /** Before round `i` of the writer: `out` holds the bytes written so far, and the bytes of the groups still to be
      written complete it. */
  ghost predicate Writing(integer: nat, total: nat, i: nat, out: nat) {
    && i <= total
    && out < ShiftLeft(1, 8 * i)
    && PackedWord(integer, total) == out + ShiftLeft(PackedWord(ShiftRight(integer, 7 * i), total - i), 8 * i)
  }

  lemma WritingStarts(integer: nat, total: nat)
    ensures Writing(integer, total, 0, 0)
  {
  }

  lemma WritingRound(integer: nat, total: nat, i: nat, low: nat, out: nat)
    requires Writing(integer, total, i, low) && i < total
    requires out == Copied(integer, 7 * i, low, 8 * i) < ShiftLeft(1, 8 * i + 7)
    ensures Writing(integer, total, i + 1, if i + 1 < total then SetBit(out, 8 * i + 7) else out)
  {
    hide ShiftLeft, ShiftRight, LowBits;
    var rest := ShiftRight(integer, 7 * i);
    Group(rest);
    ShiftRightTwice(integer, 7 * i, 7);
    NothingAbove(out, 8 * i + 7);
    DoubleShift(8 * i + 7);
    ShiftGroup(1, 8 * i);
    var tail := PackedWord(rest / 128, total - i - 1);
    ShiftLeftSum(rest % 128, 128, 8 * i);
    ShiftLeftSum(128 + rest % 128, 256 * tail, 8 * i);
    ShiftLeftTwice(tail, 1, 8 * i + 7);
    TwoBits(tail);
    ShiftGroup(2 * tail, 8 * i);
    ZeroShifted(8 * (i + 1));
  }

  lemma DoubleShift(k: nat)
    ensures ShiftLeft(1, k + 1) == 2 * ShiftLeft(1, k)
  {
  }

  lemma WritingEnds(integer: nat, total: nat, out: nat)
    requires Writing(integer, total, total, out)
    ensures out == PackedWord(integer, total)
  {
    ZeroShifted(8 * total);
  }

  lemma PackedWordFits(n: nat, k: nat)
    requires k <= 4
    ensures PackedWord(n, k) < 0x1_0000_0000
  {
    if k > 1 {
      assert PackedWord(n / 128 / 128 / 128, 1) < 128;
      assert k >= 3 ==> PackedWord(n / 128 / 128, k - 2) < 0x1_0000;
      assert PackedWord(n / 128, k - 1) < 0x100_0000;
    }
  }

  /** `ByteBauble::writePackedInt`. The reference parameter is left alone on failure. */
  method WritePackedInt(integer: uint32, before: uint32) returns (totalBytes: nat, output: uint32)
    ensures totalBytes == LengthBytes(Literal, integer)
    ensures output == if totalBytes == 0 then before else PackedWord(integer, totalBytes)
  {
    totalBytes := 0;
    if integer <= 0x80 { totalBytes := 1; }
    else if integer <= 0x4000 { totalBytes := 2; }
    else if integer <= 0x20_0000 { totalBytes := 3; }
    else if integer <= 0x1000_0000 { totalBytes := 4; }
    else {
      return 0, before;
    }

    PackedWordFits(integer, totalBytes);
    WritingStarts(integer, totalBytes);
    var out: nat, idx, src := 0, 0, 0;
    var i := 0;
    hide PackedWord, ShiftLeft, ShiftRight, LowBits;
    while i < totalBytes
      invariant 0 <= i <= totalBytes && src == 7 * i
      invariant i < totalBytes ==> idx == 8 * i
      invariant Writing(integer, totalBytes, i, out)
    {
      ghost var low := out;
      out := CopySevenBits(integer, src, out, idx);
      src, idx := src + 7, idx + 7;
      WritingRound(integer, totalBytes, i, low, out);
      if i + 1 < totalBytes {
        out := SetBit(out, idx);
        idx := idx + 1;
      }
      i := i + 1;
    }
    WritingEnds(integer, totalBytes, out);
    output := out;
  }

  // ---------------------------------------------------------------- what the loops compute

  /** Words and byte strings decode alike. */
  lemma {:induction false} DecodedIsDecodeBytes(bs: Data)
    ensures Decoded(LittleEndian(bs), |bs|) == DecodeBytes(bs)
  {
    if bs == [] {
    } else {
      var word, rest := LittleEndian(bs), LittleEndian(bs[1..]);
      assert word == bs[0] + 256 * rest;
      Divide256(word, rest, bs[0]);
      LowGroup(word);
      hide LittleEndian;
      if bs[0] >= 128 {
        Divide128(bs[0], 1, bs[0] - 128);
      }
      DecodedIsDecodeBytes(bs[1..]);
    }
  }

  /** Decoding looks at nothing past the first byte that does not continue. */
  lemma {:induction false} DecodeIgnoresTail(bs: Data, tail: Data)
    requires DecodeBytes(bs).1 <= |bs|
    ensures DecodeBytes(bs + tail) == DecodeBytes(bs)
  {
    assert (bs + tail)[1..] == bs[1..] + tail;
    if bs[0] < 128 {
    } else {
      DecodeIgnoresTail(bs[1..], tail);
    }
  }

  /** The same, for the part that was looked at. */
  lemma {:induction false} DecodePrefix(bs: Data, k: nat)
    requires DecodeBytes(bs).1 <= k <= |bs|
    ensures DecodeBytes(bs[..k]) == DecodeBytes(bs)
  {
    if bs[0] < 128 {
    } else {
      DecodePrefix(bs[1..], k - 1);
      assert bs[..k][1..] == bs[1..][..k - 1];
    }
  }

  /** The count reported is the position of the first byte that does not continue. */
  lemma {:induction false} DecodeCount(bs: Data)
    ensures var c := DecodeBytes(bs).1;
            && (forall i :: 0 <= i < c - 1 ==> bs[i] >= 128)
            && (c <= |bs| ==> bs[c - 1] < 128)
  {
    if bs == [] || bs[0] < 128 {
    } else {
      DecodeCount(bs[1..]);
      var c := DecodeBytes(bs).1;
      forall i | 0 <= i < c - 1 ensures bs[i] >= 128 {
        assert i > 0 ==> bs[i] == bs[1..][i - 1];
      }
    }
  }

  /** The value left of `n` in `k` groups. */
  function Kept(n: nat, k: nat): nat {
    if k == 0 then 0 else n % 128 + 128 * Kept(n / 128, k - 1)
  }

  /** 128 to the power `k`. */
  function Capacity(k: nat): (c: nat)
    ensures c > 0
  {
    if k == 0 then 1 else 128 * Capacity(k - 1)
  }

  lemma {:induction false} KeptWhole(n: nat, k: nat)
    ensures Kept(n, k) == n <==> n < Capacity(k)
  {
    if k == 0 {
    } else {
      KeptWhole(n / 128, k - 1);
    }
  }

  lemma Capacities()
    ensures Capacity(0) == 1 && Capacity(1) == 0x80 && Capacity(2) == 0x4000
    ensures Capacity(3) == 0x20_0000 && Capacity(4) == 0x1000_0000
  {
  }

  lemma DecodeBytesBounded(bs: Data)
    ensures DecodeBytes(bs).1 <= 4 || |bs| <= 4 ==> DecodeBytes(bs).0 < 0x1000_0000
  {
  }

  lemma {:induction false} DecodePacked(n: nat, k: nat, tail: Data)
    requires k > 0
    ensures DecodeBytes(PackedBytes(n, k) + tail) == (Kept(n, k), k)
  {
    var bs := PackedBytes(n, k) + tail;
    if k == 1 {
      assert Kept(n / 128, 0) == 0;
    } else {
      assert bs[1..] == PackedBytes(n / 128, k - 1) + tail;
      DecodePacked(n / 128, k - 1, tail);
    }
  }

  /** The writer's word, dumped low byte first, is the byte string. */
  lemma {:induction false} PackedWordBytes(n: nat, k: nat)
    ensures LowBytes(PackedWord(n, k), k) == PackedBytes(n, k)
  {
    if k > 1 {
      Divide256(PackedWord(n, k), PackedWord(n / 128, k - 1), 128 + n % 128);
      PackedWordBytes(n / 128, k - 1);
    } else if k == 1 {
      assert LowBytes(n % 128, 1) == [n % 128] + LowBytes(n % 128 / 0x100, 0);
    }
  }

  lemma {:induction false} DecodeWord(word: nat, n: nat, k: nat, groups: nat)
    requires 0 < k <= groups
    requires LowBytes(word, k) == PackedBytes(n, k)
    ensures Decoded(word, groups) == (Kept(n, k), k)
  {
    assert word % 256 == LowBytes(word, k)[0] == PackedBytes(n, k)[0];
    LowGroup(word);
    assert word % 128 == n % 128;
    if k == 1 {
      assert Kept(n / 128, 0) == 0;
    } else {
      assert LowBytes(word / 256, k - 1) == LowBytes(word, k)[1..] == PackedBytes(n, k)[1..];
      DecodeWord(word / 256, n / 128, k - 1, groups - 1);
    }
  }

  /** The writer succeeds, and the reader gets the number and its length back from any word that holds the written
      bytes, whatever lies above them. */
  ghost predicate RoundTrips(t: Thresholds, n: nat) {
    var k := LengthBytes(t, n);
    k > 0 && forall word: uint32 :: LowBytes(word, k) == PackedBytes(n, k) ==> Decoded(word, 4) == (n, k)
  }

  /** Exactly which numbers survive: not the three on which the thresholds are off by one. */
  lemma RoundTripExact(t: Thresholds, n: nat)
    ensures RoundTrips(t, n) <==> if t.Literal? then Exact(n) else n < 0x1000_0000
  {
    var k := LengthBytes(t, n);
    Capacities();
    if k > 0 {
      KeptWhole(n, k);
      forall word: uint32 | LowBytes(word, k) == PackedBytes(n, k) ensures Decoded(word, 4) == (Kept(n, k), k) {
        DecodeWord(word, n, k, 4);
      }
      PackedWordFits(n, k);
      PackedWordBytes(n, k);
    }
  }

  /** The standard's encoder, at the length it needs. */
  lemma {:induction false} StandardIsPacked(n: nat, k: nat)
    requires k > 0 && n < Capacity(k) && (k > 1 ==> n >= Capacity(k - 1))
    ensures StandardEncode(n) == PackedBytes(n, k)
  {
    if k == 1 {
    } else {
      StandardIsPacked(n / 128, k - 1);
    }
  }

  /** The bytes written are the standard's, exactly when the number survives. */
  lemma WriterRefinesStandard(t: Thresholds, n: nat)
    requires LengthBytes(t, n) > 0
    ensures PackedBytes(n, LengthBytes(t, n)) == StandardEncode(n) <==> RoundTrips(t, n)
  {
    RoundTripExact(t, n);
    Capacities();
    var k := LengthBytes(t, n);
    if RoundTrips(t, n) {
      StandardIsPacked(n, k);
    } else {
      StandardIsPacked(n, k + 1);
    }
  }

  /** Every byte but the last carries the continuation bit. */
  lemma {:induction false} ContinuationBits(n: nat)
    ensures forall i :: 0 <= i < |StandardEncode(n)| ==> (StandardEncode(n)[i] >= 128 <==> i < |StandardEncode(n)| - 1)
  {
    if n < 128 {
    } else {
      ContinuationBits(n / 128);
    }
  }

  lemma {:induction false} StandardRoundTrip(n: nat, tail: Data)
    ensures DecodeBytes(StandardEncode(n) + tail) == (n, |StandardEncode(n)|)
  {
    var bs := StandardEncode(n) + tail;
    if n < 128 {
    } else {
      assert bs[1..] == StandardEncode(n / 128) + tail;
      StandardRoundTrip(n / 128, tail);
    }
  }

  /** No byte string that decodes to a number is shorter than the standard's encoding of it. */
  lemma {:induction false} StandardIsShortest(bs: Data)
    requires DecodeBytes(bs).1 <= |bs|
    ensures |StandardEncode(DecodeBytes(bs).0)| <= DecodeBytes(bs).1
  {
    var (value, count) := DecodeBytes(bs);
    if bs[0] < 128 {
    } else {
      StandardIsShortest(bs[1..]);
      assert value / 128 == DecodeBytes(bs[1..]).0;
    }
  }

  /** Off the misjudged numbers the writer uses the fewest bytes of any word the reader maps to it. */
  lemma WriterUsesFewestBytes(bs: Data)
    requires |bs| == 4
    ensures var (n, count) := Decoded(LittleEndian(bs), 4);
            count <= 4 && Exact(n) ==> 0 < LengthBytes(Literal, n) <= count
  {
    DecodedIsDecodeBytes(bs);
    var (n, count) := DecodeBytes(bs);
    if count <= 4 && Exact(n) {
      StandardIsShortest(bs);
      RoundTripExact(Literal, n);
      WriterRefinesStandard(Literal, n);
    }
  }
}
