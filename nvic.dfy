/**
 * The Cortex-M4 NVIC helpers every peripheral driver repeats
 * (I2C, SPI, USART and GPIO `*_IRQInterruptConfig`, `*_PriorityConfig`):
 * set-enable / clear-enable bits in ISER0..2 / ICER0..2, and a priority
 * OR-ed into the interrupt priority word of the IRQ.
 */
module Nvic {
  import opened Bits

  const ENABLE: byte := 1
  /** Priority bits implemented by the STM32F407: the upper four of each priority byte. */
  const NO_PR_BITS_IMPLEMENTED: nat := 4

  /** The mask `1 << k` of one bit of a 32-bit word. */
  function Bit(k: nat): (m: bv32)
    requires k < 32
    ensures m != 0
  {
    (1 as bv32) << k
  }

  /**
   * Reference definition: IRQ `n` below 96 owns bit `n % 32` of word `n / 32`;
   * writing its bit into copies of the three words.
   */
  function SetIrqBit(words: seq<bv32>, n: nat): (r: seq<bv32>)
    requires |words| == 3
    ensures |r| == 3
  {
    if n < 96 then words[n / 32 := SetBits(words[n / 32], Bit(n % 32))] else words
  }

  /** The register block the helpers write. */
  class NvicRegs {
    var ISER0: bv32
    var ISER1: bv32
    var ISER2: bv32
    var ICER0: bv32
    var ICER1: bv32
    var ICER2: bv32
    /** IPR0, IPR1, ...: one priority byte per IRQ, four per word. */
    var ipr: array<bv32>

    ghost function Iser(): seq<bv32>
      reads this`ISER0, this`ISER1, this`ISER2
    {
      [ISER0, ISER1, ISER2]
    }

    ghost function Icer(): seq<bv32>
      reads this`ICER0, this`ICER1, this`ICER2
    {
      [ICER0, ICER1, ICER2]
    }

    constructor (iprWords: nat)
      ensures Iser() == [0, 0, 0] && Icer() == [0, 0, 0]
      ensures fresh(ipr) && ipr.Length == iprWords
    {
      ISER0, ISER1, ISER2 := 0, 0, 0;
      ICER0, ICER1, ICER2 := 0, 0, 0;
      ipr := new bv32[iprWords];
    }

    /** `*_IRQInterruptConfig`: enable writes the IRQ's ISER bit, disable its ICER bit; IRQs above 95 are ignored. */
    method IrqInterruptConfig(irq: byte, enOrDi: byte)
      modifies this`ISER0, this`ISER1, this`ISER2, this`ICER0, this`ICER1, this`ICER2
      ensures enOrDi == ENABLE ==> Iser() == SetIrqBit(old(Iser()), irq) && Icer() == old(Icer())
      ensures enOrDi != ENABLE ==> Icer() == SetIrqBit(old(Icer()), irq) && Iser() == old(Iser())
    {
      IrqWords(if enOrDi == ENABLE then Iser() else Icer(), irq);
      if enOrDi == ENABLE {
        if irq <= 31 {
          ISER0 := SetBits(ISER0, Bit(irq));
        } else if irq <= 63 {
          ISER1 := SetBits(ISER1, Bit(irq % 32));
        } else if irq <= 95 {
          ISER2 := SetBits(ISER2, Bit(irq % 64));
        }
      } else {
        if irq <= 31 {
          ICER0 := SetBits(ICER0, Bit(irq));
        } else if irq <= 63 {
          ICER1 := SetBits(ICER1, Bit(irq % 32));
        } else if irq <= 95 {
          ICER2 := SetBits(ICER2, Bit(irq % 64));
        }
      }
    }

    /**
     * `*_PriorityConfig`: the priority, shifted to the implemented upper
     * nibble of the IRQ's byte, is OR-ed into word `irq / 4` (no clear first).
     */
    method PriorityConfig(irq: byte, priority: bv32)
      requires irq / 4 < ipr.Length
      modifies ipr
      ensures ipr[..] == old(ipr[..])[irq / 4 := SetBits(old(ipr[irq / 4]), priority << PriorityShift(irq))]
    {
      var iprx := irq / 4;
      var section := irq % 4;
      var shiftAmount := 8 * section + (8 - NO_PR_BITS_IMPLEMENTED);
      assert shiftAmount == PriorityShift(irq);
      var word := SetBits(ipr[iprx], priority << shiftAmount);
      ipr[iprx] := word;
    }
  }

  /** Where `*_PriorityConfig` puts the priority of `irq` within its word. */
  function PriorityShift(irq: byte): (s: nat)
    ensures s < 32 && s % 8 == 4
  {
    8 * (irq % 4) + (8 - NO_PR_BITS_IMPLEMENTED)
  }

  /** The reference definition word by word, in the source's branch form. */
  lemma IrqWords(words: seq<bv32>, n: nat)
    requires |words| == 3
    ensures n <= 31 ==> SetIrqBit(words, n) == [SetBits(words[0], Bit(n)), words[1], words[2]]
    ensures 31 < n <= 63 ==> SetIrqBit(words, n) == [words[0], SetBits(words[1], Bit(n % 32)), words[2]]
    ensures 63 < n <= 95 ==> SetIrqBit(words, n) == [words[0], words[1], SetBits(words[2], Bit(n % 64))]
    ensures n > 95 ==> SetIrqBit(words, n) == words
  {
    if n <= 31 {
      assert n / 32 == 0 && n % 32 == n;
    } else if n <= 63 {
      assert n / 32 == 1;
    } else if n <= 95 {
      assert n / 32 == 2 && n % 64 == n % 32;
    }
  }

  /** Enabling sets exactly the IRQ's bit `n % 32` of word `n / 32`; the other words are untouched. */
  lemma SetIrqBitExact(words: seq<bv32>, n: nat)
    requires |words| == 3 && n < 96
    ensures SetIrqBit(words, n)[n / 32] & Bit(n % 32) != 0
    ensures SetIrqBit(words, n)[n / 32] & !Bit(n % 32) == words[n / 32] & !Bit(n % 32)
    ensures forall w :: 0 <= w < 3 && w != n / 32 ==> SetIrqBit(words, n)[w] == words[w]
  {
    var w := n / 32;
    var m := Bit(n % 32);
    var r := SetIrqBit(words, n);
    assert w < 3 && r == words[w := SetBits(words[w], m)];
    SetBitIsSet(words[w], m);
  }

  lemma SetBitIsSet(x: bv32, m: bv32)
    requires m != 0
    ensures SetBits(x, m) & m != 0
  {
  }

  /** IRQ numbers above 95 write nothing. */
  lemma SetIrqBitOutOfRange(words: seq<bv32>, n: nat)
    requires |words| == 3 && n > 95
    ensures SetIrqBit(words, n) == words
  {
  }


  /**
   * The enabled IRQs after a disable on the NVIC itself, where a read of
   * ICERx returns the word's enabled IRQs and each 1 written disables that
   * IRQ: the driver's `ICERx |= bit` writes back the enabled word with bit
   * `n % 32` added.
   */
  function DisableOnNvic(enabled: seq<bv32>, n: nat): (r: seq<bv32>)
    requires |enabled| == 3
    ensures |r| == 3
  {
    if n < 96 then
      var w := n / 32;
      enabled[w := enabled[w] & !(enabled[w] | Bit(n % 32))]
    else enabled
  }

  /** The write-back is the clear-enable value `IrqInterruptConfig` stores when ICER reads as the enabled set. */
  lemma DisableOnNvicWritesIcer(enabled: seq<bv32>, n: nat)
    requires |enabled| == 3 && n < 96
    ensures DisableOnNvic(enabled, n) == enabled[n / 32 := enabled[n / 32] & !SetIrqBit(enabled, n)[n / 32]]
  {
  }

  /**
   * Disabling IRQ `n` disables every IRQ of its word, not only `n`; the
   * other two words are untouched.
   */
  lemma DisableClearsWord(enabled: seq<bv32>, n: nat)
    requires |enabled| == 3 && n < 96
    ensures DisableOnNvic(enabled, n)[n / 32] == 0
    ensures forall w :: 0 <= w < 3 && w != n / 32 ==> DisableOnNvic(enabled, n)[w] == enabled[w]
  {
  }

  /** An IRQ above 95 disables nothing. */
  lemma DisableOutOfRange(enabled: seq<bv32>, n: nat)
    requires |enabled| == 3 && n > 95
    ensures DisableOnNvic(enabled, n) == enabled
  {
  }

  /** The priority is OR-ed in: every bit set before stays set, whatever priority is written. */
  lemma PriorityOnlyAdds(word: bv32, priority: bv32, irq: byte)
    ensures SetBits(word, priority << PriorityShift(irq)) & word == word
  {
  }

  /** With priority 0..15, the nibble lands in the upper half of the IRQ's priority byte. */
  lemma PriorityNibble(priority: bv32, irq: byte)
    requires priority < 16
    ensures (priority << PriorityShift(irq)) >> PriorityShift(irq) == priority
    ensures (priority << PriorityShift(irq)) & !((0xF as bv32) << PriorityShift(irq)) == 0
  {
  }
}
