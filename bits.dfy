/**
 * Read-modify-write helpers shared by the register models: `reg |= mask`,
 * `reg &= ~mask`, and the integer byte and data-register types.
 */
module Bits {

  /** `reg | mask`: the mask bits become 1, every other bit is kept. */
  function SetBits(reg: bv32, mask: bv32): (r: bv32)
    ensures r & mask == mask
    ensures r & !mask == reg & !mask
  {
    reg | mask
  }

  /** `reg & ~mask`: the mask bits become 0, every other bit is kept. */
  function ClearBits(reg: bv32, mask: bv32): (r: bv32)
    ensures r & mask == 0
    ensures r & !mask == reg & !mask
  {
    reg & !mask
  }

  /** An unsigned 8-bit value held as an integer. */
  type byte = x: int | 0 <= x < 0x100

  /** An unsigned 16-bit value held as an integer. */
  type uint16 = x: int | 0 <= x < 0x1_0000

  /** An unsigned 32-bit value held as an integer (data registers, which are only loaded and read). */
  type uint32 = x: int | 0 <= x < 0x1_0000_0000

  /**
   * Byte `i` of a caller's buffer. A driver that reads past the end of the
   * buffer reads whatever memory follows it; the model reads 0 there.
   */
  function ByteAt(buf: seq<byte>, i: nat): byte
  {
    if i < |buf| then buf[i] else 0
  }

  /** A 32-bit data register read as `uint8_t`: its low eight bits. */
  function LowByte(reg: uint32): (b: byte)
    ensures reg < 0x100 ==> b == reg
    ensures (reg - b) % 0x100 == 0
  {
    reg % 0x100
  }

  /** Setting or clearing one mask does not disturb the bits of a disjoint mask. */
  lemma DisjointMasks(reg: bv32, m1: bv32, m2: bv32)
    requires m1 & m2 == 0
    ensures ClearBits(reg, m1) & m2 == reg & m2
    ensures SetBits(reg, m1) & m2 == reg & m2
  {
  }

  /** Clearing bits that are already clear changes nothing. */
  lemma ClearUnset(reg: bv32, mask: bv32)
    requires reg & mask == 0
    ensures ClearBits(reg, mask) == reg
  {
  }

  /** Two successive clears are one clear of the union of the masks. */
  lemma ClearTwice(reg: bv32, m1: bv32, m2: bv32)
    ensures ClearBits(ClearBits(reg, m1), m2) == ClearBits(reg, m1 | m2)
  {
  }
}
