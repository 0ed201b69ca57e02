/** Byte order conversion, `ByteBauble::toGlobal` and `toHost`, on a little-endian host. */
module Endian {
  import opened Bytes

  datatype Endianness = BigEndianOrder | LittleEndianOrder

  const HOST := LittleEndianOrder

  function Swap16(n: uint16): uint16 {
    n % 0x100 * 0x100 + n / 0x100
  }

  /** The value of a byte string with the most significant byte first. */
  function BigEndian(bs: Data): nat {
    if bs == [] then 0 else 0x100 * BigEndian(bs[..|bs| - 1]) + bs[|bs| - 1]
  }

  /** `__builtin_bswap64`: the eight bytes in memory order, read from the other end. */
  function Swap64(n: nat): nat {
    BigEndian(LowBytes(n, 8))
  }

  function ToGlobal16(n: uint16, end: Endianness, global: Endianness): uint16 {
    if end == global then n else Swap16(n)
  }

  function ToGlobal64(n: nat, end: Endianness, global: Endianness): nat {
    if end == global then n else Swap64(n)
  }

  function ToHost16(n: uint16, end: Endianness): uint16 {
    if end == HOST then n else Swap16(n)
  }

  /** A two byte length, most significant byte first, as section 1.5.3 of MQTT 3.1.1 asks. */
  function Prefix16(n: nat): (bs: Data)
    ensures |bs| == 2
  {
    [n / 0x100 % 0x100, n % 0x100]
  }

  /** Converting a 16-bit number to the global order and dumping the host's memory gives that prefix. */
  lemma DumpedPrefix(n: uint16)
    ensures LowBytes(ToGlobal16(n, HOST, BigEndianOrder), 2) == Prefix16(n)
  {
  }

  lemma LoadedPrefix(high: byte, low: byte)
    ensures ToHost16(high + 0x100 * low, BigEndianOrder) == 0x100 * high + low
  {
  }

  /** The two bytes the code writes for a string length it passes on as a 64-bit `size_t`: the swapped number cut
      down to 16 bits. */
  function TruncatedPrefix(n: nat): (bs: Data)
    ensures |bs| == 2
  {
    LowBytes(ToGlobal64(n, HOST, BigEndianOrder) % 0x1_0000, 2)
  }

  /** They are the two topmost bytes of the length instead of the two lowest. */
  lemma TruncatedPrefixIsTop(n: nat)
    ensures TruncatedPrefix(n) == [LowBytes(n, 8)[7], LowBytes(n, 8)[6]]
  {
    var bs := LowBytes(n, 8);
    var head := bs[..7];
    assert head[..6] == bs[..6];
    assert BigEndian(bs) == 0x100 * BigEndian(head) + bs[7];
    assert BigEndian(head) == 0x100 * BigEndian(bs[..6]) + bs[6];
    var top: nat := 0x100 * (bs[6] as int) + bs[7] as int;
    assert Swap64(n) == 0x1_0000 * BigEndian(bs[..6]) + top;
    assert Swap64(n) % 0x1_0000 == top;
    assert LowBytes(top, 2) == [top % 0x100] + LowBytes(top / 0x100, 1);
  }

  lemma {:induction false} HighBytesZero(n: nat, k: nat, j: nat)
    requires j < k && n < ShiftLeft(1, 8 * j)
    ensures LowBytes(n, k)[j] == 0
  {
    if j == 0 {
      assert n == 0;
    } else {
      assert ShiftLeft(1, 8 * j) == 256 * ShiftLeft(1, 8 * (j - 1)) by { Eight(8 * (j - 1)); }
      HighBytesZero(n / 0x100, k - 1, j - 1);
      assert LowBytes(n, k)[j] == LowBytes(n / 0x100, k - 1)[j - 1];
    }
  }

  lemma Eight(k: nat)
    ensures ShiftLeft(1, k + 8) == 256 * ShiftLeft(1, k)
  {
    assert ShiftLeft(1, k + 2) == 4 * ShiftLeft(1, k);
    assert ShiftLeft(1, k + 4) == 16 * ShiftLeft(1, k);
    assert ShiftLeft(1, k + 6) == 64 * ShiftLeft(1, k);
  }

  lemma TruncatedPrefixZero(n: nat)
    requires n < 0x1_0000_0000_0000
    ensures TruncatedPrefix(n) == [0, 0]
  {
    TruncatedPrefixIsTop(n);
    hide TruncatedPrefix, LowBytes;
    assert ShiftLeft(1, 0) == 1;
    hide ShiftLeft;
    Eight(0); Eight(8); Eight(16); Eight(24); Eight(32); Eight(40); Eight(48);
    HighBytesZero(n, 8, 6);
    HighBytesZero(n, 8, 7);
  }

  lemma ZeroPrefix(n: nat)
    ensures Prefix16(n) == [0, 0] <==> n % 0x1_0000 == 0
  {
    assert n == 0x1_0000 * (n / 0x1_0000) + 0x100 * (n / 0x100 % 0x100) + n % 0x100;
  }

  /** So for a string of under 2^48 bytes, that is, for any that fits in memory, the prefix is zero, and it is
      the right one exactly for a length that is a multiple of 2^16. */
  lemma TruncatedPrefixWrong(n: nat)
    requires n < 0x1_0000_0000_0000
    ensures TruncatedPrefix(n) == [0, 0]
    ensures TruncatedPrefix(n) == Prefix16(n) <==> n % 0x1_0000 == 0
  {
    TruncatedPrefixZero(n);
    ZeroPrefix(n);
  }
}
