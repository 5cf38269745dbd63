/** Go's `uint8` and `uint16` as integer ranges, with the wrapping and the
    bit operations the emulator uses written out arithmetically. Bit k of
    a byte x is (x / 2^k) % 2; `x | (1 << k)` and `x &^ (1 << k)` are
    `SetBit` and `ClearBit`; shifting a byte left drops the bits that
    leave it. */
module Bits {

  type Byte = x: int | 0 <= x < 0x100
  type Word = x: int | 0 <= x < 0x1_0000

  /** `uint16` arithmetic: the result reduced modulo 2^16, so that
      0xFFFF + 1 is 0 and 0 - 1 is 0xFFFF. */
  function Wrap16(x: int): (w: Word)
    ensures (w - x) % 0x1_0000 == 0
  {
    x % 0x1_0000
  }

  /** Go's `byte(x)` / `uint8(x)`: keep the low eight bits. */
  function Truncate8(x: int): (b: Byte)
    ensures (b - x) % 0x100 == 0
  {
    x % 0x100
  }

  /** `uint16(high)<<8 | uint16(low)`: the two bytes occupy disjoint bits,
      so the OR is a sum. */
  function Join(high: Byte, low: Byte): Word
  {
    high * 0x100 + low
  }

  /** `uint8(w >> 8)`. */
  function High(w: Word): Byte
  {
    w / 0x100
  }

  /** `uint8(w & 0xFF)`. */
  function Low(w: Word): Byte
  {
    w % 0x100
  }

  /** Joining the two halves of a word gives the word back. */
  lemma SplitJoin(w: Word)
    ensures Join(High(w), Low(w)) == w
  {
  }

  /** Splitting a joined word gives the two bytes back. */
  lemma JoinSplit(high: Byte, low: Byte)
    ensures High(Join(high, low)) == high
    ensures Low(Join(high, low)) == low
  {
  }

  /** `1 << k` for a bit position of a byte. */
  function Mask(k: nat): (m: nat)
    requires k < 8
  {
    match k
    case 0 => 1
    case 1 => 2
    case 2 => 4
    case 3 => 8
    case 4 => 16
    case 5 => 32
    case 6 => 64
    case _ => 128
  }

  /** `x & (1 << k) != 0`. */
  predicate Bit(x: Byte, k: nat)
    requires k < 8
  {
    (x / Mask(k)) % 2 == 1
  }

  /** `x & (1 << k)`: 2^k when bit k is set, otherwise 0. */
  function AndBit(x: Byte, k: nat): nat
    requires k < 8
  {
    if Bit(x, k) then Mask(k) else 0
  }

  /** `x | (1 << k)`. When bit k is clear this adds 2^k, which stays
      below 0x100; callers with a fixed k see the byte range directly. */
  function SetBit(x: Byte, k: nat): nat
    requires k < 8
  {
    if Bit(x, k) then x else x + Mask(k)
  }

  /** `x & ^(1 << k)`: when bit k is set this subtracts 2^k. */
  function ClearBit(x: Byte, k: nat): nat
    requires k < 8
  {
    if Bit(x, k) then x - Mask(k) else x
  }
}
