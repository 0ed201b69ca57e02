/** Machine integers and byte strings, as the codec of `bytebauble.cpp` and `message.cpp` uses them.
    Integers are naturals with an explicit width. `n >> k` is `ShiftRight(n, k)`, `n << k` is
    `ShiftLeft(n, k)`, `(n >> k) & 1` is `Bit(n, k)` and `n |= 1 << k` is `SetBit(n, k)`. */
module Bytes {

  type byte = n: int | 0 <= n < 0x100
  type uint16 = n: int | 0 <= n < 0x1_0000
  type uint32 = n: int | 0 <= n < 0x1_0000_0000
  type Data = seq<byte>

  function ShiftRight(n: nat, k: nat): nat {
    if k == 0 then n else ShiftRight(n / 2, k - 1)
  }

  function ShiftLeft(n: nat, k: nat): nat {
    if k == 0 then n else 2 * ShiftLeft(n, k - 1)
  }

  /** The low `k` bits of a number. */
  function LowBits(n: nat, k: nat): nat {
    if k == 0 then 0 else n % 2 + 2 * LowBits(n / 2, k - 1)
  }

  predicate Bit(n: nat, k: nat) {
    ShiftRight(n, k) % 2 == 1
  }

  function SetBit(n: nat, k: nat): nat {
    if Bit(n, k) then n else n + ShiftLeft(1, k)
  }

  lemma {:induction false} ShiftRightTwice(n: nat, a: nat, b: nat)
    ensures ShiftRight(n, a + b) == ShiftRight(ShiftRight(n, a), b)
  {
    if a == 0 {
    } else {
      ShiftRightTwice(n / 2, a - 1, b);
    }
  }

  lemma {:induction false} ShiftLeftTwice(n: nat, a: nat, b: nat)
    ensures ShiftLeft(n, a + b) == ShiftLeft(ShiftLeft(n, a), b)
  {
    if b == 0 {
    } else {
      ShiftLeftTwice(n, a, b - 1);
    }
  }

  lemma {:induction false} ShiftLeftSum(m: nat, n: nat, k: nat)
    ensures ShiftLeft(m + n, k) == ShiftLeft(m, k) + ShiftLeft(n, k)
  {
    if k == 0 {
    } else {
      ShiftLeftSum(m, n, k - 1);
    }
  }

  /** The low `k + 1` bits are the low `k` bits and bit `k`. */
  lemma {:induction false} LowBitsStep(n: nat, k: nat)
    ensures LowBits(n, k + 1) == LowBits(n, k) + if Bit(n, k) then ShiftLeft(1, k) else 0
  {
    if k == 0 {
    } else {
      LowBitsStep(n / 2, k - 1);
    }
  }

  lemma {:induction false} LowBitsSplit(n: nat, a: nat, b: nat)
    ensures LowBits(n, a + b) == LowBits(n, a) + ShiftLeft(LowBits(ShiftRight(n, a), b), a)
  {
    if a == 0 {
    } else {
      LowBitsSplit(n / 2, a - 1, b);
    }
  }

  /** A number below `1 << k` has nothing at bit `k`, so setting that bit adds it. */
  lemma {:induction false} NothingAbove(n: nat, k: nat)
    requires n < ShiftLeft(1, k)
    ensures ShiftRight(n, k) == 0
  {
    if k == 0 {
    } else {
      NothingAbove(n / 2, k - 1);
    }
  }

  /** The value of a byte string with the least significant byte first, as the host stores it. */
  function LittleEndian(bs: Data): nat {
    if bs == [] then 0 else bs[0] + 0x100 * LittleEndian(bs[1..])
  }

  /** The first `k` bytes of a number's host representation. */
  function LowBytes(n: nat, k: nat): (bs: Data)
    ensures |bs| == k
  {
    if k == 0 then [] else [n % 0x100] + LowBytes(n / 0x100, k - 1)
  }

  function Concat(parts: seq<Data>): Data {
    if parts == [] then [] else parts[0] + Concat(parts[1..])
  }
}
