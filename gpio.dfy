/**
 * The GPIO driver (`drivers/Src/stm32f407xx_gpio_driver.c`): `GPIO_Init`'s
 * read-modify-write of the pin's MODER, OSPEEDR, PUPDR, OTYPER and AFR
 * fields, the EXTI and SYSCFG set-up of the interrupt modes, pin and port
 * reads and writes, and the EXTI pending-bit handler. The NVIC helpers the
 * driver repeats are modelled once, in module `Nvic`.
 *
 * Configuration values are `uint8_t` and held as `bv8`; a value is shifted
 * into place without masking, exactly as the driver does, so a value too
 * wide for its field spills into the next pin's field.
 */
module Gpio {
  import opened Bits

  const GPIO_MODE_IN: bv8 := 0
  const GPIO_MODE_OUT: bv8 := 1
  const GPIO_MODE_ALTFN: bv8 := 2
  const GPIO_MODE_ANALOG: bv8 := 3
  const GPIO_MODE_IT_FT: bv8 := 4
  const GPIO_MODE_IT_RT: bv8 := 5
  const GPIO_MODE_IT_RFT: bv8 := 6

  const GPIO_PIN_SET: bv8 := 1

  /** The nine ports of the STM32F407. */
  datatype Port = GPIOA | GPIOB | GPIOC | GPIOD | GPIOE | GPIOF | GPIOG | GPIOH | GPIOI

  /** `GPIO_BASEADDR_TO_CODE`: the port's EXTI line source code, A = 0 to I = 8. */
  function PortCode(port: Port): (code: bv32)
    ensures code <= 8
    ensures code == 0 <==> port == GPIOA
  {
    match port
    case GPIOA => 0
    case GPIOB => 1
    case GPIOC => 2
    case GPIOD => 3
    case GPIOE => 4
    case GPIOF => 5
    case GPIOG => 6
    case GPIOH => 7
    case GPIOI => 8
  }

  /** The port codes are distinct: EXTICR tells the ports apart. */
  lemma PortCodeInjective(a: Port, b: Port)
    ensures PortCode(a) == PortCode(b) ==> a == b
  {
  }

  /** `GPIO_PinConfig_t`. */
  datatype PinConfig = PinConfig(pinNumber: bv8, pinMode: bv8, pinSpeed: bv8, pinPuPdControl: bv8, pinOpType: bv8, pinAltFunMode: bv8)

  /** The pin's mask, `1 << pin`. */
  function PinBit(p: bv8): bv32
    requires p < 16
  {
    1 << p
  }

  /** `2 * pin`, the position of a pin's two-bit field. */
  function PairPos(p: bv8): (pos: bv32)
    requires p < 16
    ensures pos < 32
  {
    (p as bv32) + (p as bv32)
  }

  /** `reg &= ~mask; reg |= bits`, with the field's mask and value already shifted into place. */
  function WriteField(reg: bv32, mask: bv32, bits: bv32): bv32
  {
    (reg & !mask) | bits
  }

  /** The field of width `mask` at `pos`. */
  function ReadField(reg: bv32, mask: bv32, pos: bv32): bv32
    requires pos < 32
  {
    (reg >> pos) & mask
  }

  /** Pin `p`'s two-bit field (MODER, OSPEEDR, PUPDR) written with `v`, shifted by `2 * p` and not masked. */
  function WritePair(reg: bv32, v: bv8, p: bv8): bv32
    requires p < 16
  {
    WriteField(reg, 3 << PairPos(p), (v as bv32) << PairPos(p))
  }

  /** Pin `p`'s two-bit field. */
  function ReadPair(reg: bv32, p: bv8): bv32
    requires p < 16
  {
    ReadField(reg, 3, PairPos(p))
  }

  /** Pin `p`'s one-bit field (OTYPER) written with `v`, shifted by `p` and not masked. */
  function WriteBit(reg: bv32, v: bv8, p: bv8): bv32
    requires p < 16
  {
    WriteField(reg, PinBit(p), (v as bv32) << (p as bv32))
  }

  /** Pin `p`'s one-bit field. */
  function ReadBit(reg: bv32, p: bv8): bv32
    requires p < 16
  {
    ReadField(reg, 1, p as bv32)
  }

  /** Nibble `k` of a register (AFR, EXTICR) written with `v`, shifted by `4 * k` and not masked. */
  function WriteNibble(reg: bv32, v: bv32, k: bv32): bv32
    requires k < 8
  {
    WriteField(reg, 15 << (k << 2), v << (k << 2))
  }

  /** Nibble `k` of a register. */
  function ReadNibble(reg: bv32, k: bv32): bv32
    requires k < 8
  {
    ReadField(reg, 15, k << 2)
  }

  /** `pin / 4`: the EXTICR word that selects the port of EXTI line `p`. */
  function ExticrWord(p: bv8): (k: nat)
    requires p < 16
    ensures k < 4
  {
    (p >> 2) as int
  }

  /** `pin % 4`: the nibble within that word. */
  function ExticrNibble(p: bv8): (n: bv32)
    requires p < 16
    ensures n < 4
  {
    (p & 3) as bv32
  }

  /** `pin / 8`: AFR[0] for pins 0..7, AFR[1] for pins 8..15. */
  function AfrWord(p: bv8): (k: nat)
    requires p < 16
    ensures k < 2
  {
    (p >> 3) as int
  }

  /** `pin % 8`: the nibble within that word. */
  function AfrNibble(p: bv8): (n: bv32)
    requires p < 16
    ensures n < 8
  {
    (p & 7) as bv32
  }

  /** The word and nibble of each split are the quotient and remainder of the pin number. */
  lemma PinSplits(p: bv8)
    requires p < 16
    ensures p as int == 4 * ExticrWord(p) + ExticrNibble(p) as int
    ensures p as int == 8 * AfrWord(p) + AfrNibble(p) as int
  {
  }

  /** A two-bit value that fits is read back from pin `p`'s field. */
  lemma PairField(reg: bv32, v: bv8, p: bv8)
    requires p < 16 && v < 4
    ensures ReadPair(WritePair(reg, v, p), p) == v as bv32
  {
  }

  /** Writing a value that fits into pin `p`'s pair keeps every other pin's pair. */
  lemma OtherPairs(reg: bv32, v: bv8, p: bv8, q: bv8)
    requires p < 16 && q < 16 && p != q && v < 4
    ensures ReadPair(WritePair(reg, v, p), q) == ReadPair(reg, q)
  {
  }

  /** The one-bit OTYPER field: a value 0 or 1 is read back and every other pin's bit is kept. */
  lemma BitField(reg: bv32, v: bv8, p: bv8)
    requires p < 16 && v < 2
    ensures ReadBit(WriteBit(reg, v, p), p) == v as bv32
    ensures WriteBit(reg, v, p) & !PinBit(p) == reg & !PinBit(p)
  {
  }

  /** A nibble field (AFR, EXTICR): a value 0..15 is read back and every bit outside the nibble is kept. */
  lemma NibbleField(reg: bv32, v: bv32, k: bv32)
    requires k < 8 && v < 16
    ensures ReadNibble(WriteNibble(reg, v, k), k) == v
    ensures WriteNibble(reg, v, k) & !(15 << (k << 2)) == reg & !(15 << (k << 2))
  {
  }

  /** A value too wide for its field is not masked: speed 4 for pin 0 sets bit 0 of pin 1's field. */
  lemma WideValueSpills(reg: bv32)
    requires reg == 0
    ensures ReadPair(WritePair(reg, 4, 0), 0) == 0
    ensures ReadPair(WritePair(reg, 4, 0), 1) == 1
  {
  }

  /** The port registers. */
  class GpioRegs {
    var MODER: bv32
    var OTYPER: bv32
    var OSPEEDR: bv32
    var PUPDR: bv32
    var IDR: bv32
    var ODR: bv32
    /** AFR[0] (pins 0..7) and AFR[1] (pins 8..15). */
    var AFR: seq<bv32>

    constructor ()
      ensures MODER == 0 && OTYPER == 0 && OSPEEDR == 0 && PUPDR == 0 && IDR == 0 && ODR == 0 && AFR == [0, 0]
    {
      MODER, OTYPER, OSPEEDR, PUPDR, IDR, ODR := 0, 0, 0, 0, 0, 0;
      AFR := [0, 0];
    }

    /** `GPIO_ReadFromInputPin`: bit `p` of IDR as 0 or 1. */
    method ReadFromInputPin(p: bv8) returns (value: bv8)
      requires p < 16
      ensures value <= 1
      ensures value == 1 <==> IDR & PinBit(p) != 0
    {
      value := ((IDR >> p) & 1) as bv8;
    }

    /** `GPIO_ReadFromInputPort`: IDR cast to `uint16_t`, its low 16 bits. */
    method ReadFromInputPort() returns (value: bv16)
      ensures value as bv32 == IDR & 0xFFFF
      ensures forall p: bv8 {:trigger PinBit(p)} :: p < 16 ==> (IDR & PinBit(p) != 0 <==> (value as bv32) & PinBit(p) != 0)
    {
      value := (IDR & 0xFFFF) as bv16;
    }

    /** `GPIO_WriteToOutputPin`: `GPIO_PIN_SET` sets ODR bit `p`, any other value clears it. */
    method WriteToOutputPin(p: bv8, value: bv8)
      requires p < 16
      modifies this`ODR
      ensures ODR == if value == GPIO_PIN_SET then SetBits(old(ODR), PinBit(p)) else ClearBits(old(ODR), PinBit(p))
    {
      if value == GPIO_PIN_SET {
        ODR := SetBits(ODR, PinBit(p));
      } else {
        ODR := ClearBits(ODR, PinBit(p));
      }
    }

    /** `GPIO_WriteToOutputPort`: ODR assigned the 16-bit value; the upper half becomes 0. */
    method WriteToOutputPort(value: bv16)
      modifies this`ODR
      ensures ODR == value as bv32
    {
      ODR := value as bv32;
    }

    /** `GPIO_ToggleOutputPin`: ODR bit `p` flipped. */
    method ToggleOutputPin(p: bv8)
      requires p < 16
      modifies this`ODR
      ensures ODR == Toggle(old(ODR), p)
    {
      ODR := ODR ^ PinBit(p);
    }
  }

  /** `ODR ^ (1 << p)`. */
  function Toggle(odr: bv32, p: bv8): bv32
    requires p < 16
  {
    odr ^ PinBit(p)
  }

  /** A write to one pin makes its bit `value == SET` and leaves every other pin. */
  lemma OutputPinWritten(odr: bv32, p: bv8, value: bv8)
    requires p < 16
    ensures var r := if value == GPIO_PIN_SET then SetBits(odr, PinBit(p)) else ClearBits(odr, PinBit(p));
      (ReadBit(r, p) == 1 <==> value == GPIO_PIN_SET) && r & !PinBit(p) == odr & !PinBit(p)
  {
    var r := if value == GPIO_PIN_SET then SetBits(odr, PinBit(p)) else ClearBits(odr, PinBit(p));
    assert r & PinBit(p) == (if value == GPIO_PIN_SET then PinBit(p) else 0);
    SingleBit(r, p);
  }

  /** Bit `p` read as a field is 1 exactly when the pin's mask is set. */
  lemma SingleBit(r: bv32, p: bv8)
    requires p < 16
    ensures ReadBit(r, p) == 1 <==> r & PinBit(p) != 0
    ensures ReadBit(r, p) <= 1
  {
  }

  /** Toggling flips exactly bit `p`, and toggling twice restores ODR. */
  lemma ToggleExact(odr: bv32, p: bv8)
    requires p < 16
    ensures Toggle(odr, p) & PinBit(p) != 0 <==> odr & PinBit(p) == 0
    ensures Toggle(odr, p) & !PinBit(p) == odr & !PinBit(p)
    ensures Toggle(Toggle(odr, p), p) == odr
  {
  }

  /** The EXTI lines' registers. */
  class ExtiRegs {
    var IMR: bv32
    var RTSR: bv32
    var FTSR: bv32
    /** Pending bits; writing 1 to a bit clears it (section 12.3.6 of the STM32F407 reference manual, RM0090). */
    var PR: bv32

    constructor ()
      ensures IMR == 0 && RTSR == 0 && FTSR == 0 && PR == 0
    {
      IMR, RTSR, FTSR, PR := 0, 0, 0, 0;
    }

    /**
     * `GPIO_IRQHandling`: when line `p` is pending, `PR |= 1 << p` writes
     * back every pending bit together with `p`'s, and so clears them all.
     */
    method IrqHandling(p: bv8)
      requires p < 16
      modifies this`PR
      ensures PR == if old(PR) & PinBit(p) != 0 then WriteOneToClear(old(PR), old(PR) | PinBit(p)) else old(PR)
    {
      if PR & PinBit(p) != 0 {
        PR := WriteOneToClear(PR, PR | PinBit(p));
      }
    }
  }

  /** The pending register after `written` is stored to it: each bit written as 1 is cleared. */
  function WriteOneToClear(pr: bv32, written: bv32): bv32
  {
    pr & !written
  }

  /** The handler clears line `p` when it is pending, but with it every other pending line. */
  lemma IrqHandlingClearsAll(pr: bv32, p: bv8)
    requires p < 16 && pr & PinBit(p) != 0
    ensures WriteOneToClear(pr, pr | PinBit(p)) == 0
  {
  }

  /** A line that is not pending is left alone, and so are the others. */
  lemma IrqHandlingIdle(pr: bv32, p: bv8)
    requires p < 16 && pr & PinBit(p) == 0
    ensures (if pr & PinBit(p) != 0 then WriteOneToClear(pr, pr | PinBit(p)) else pr) == pr
  {
  }

  /** The system configuration controller's EXTI source selection, EXTICR1..4. */
  class SyscfgRegs {
    var EXTICR: seq<bv32>

    constructor ()
      ensures EXTICR == [0, 0, 0, 0]
    {
      EXTICR := [0, 0, 0, 0];
    }
  }

  /** MODER after `GPIO_Init`: the mode written for the four non-interrupt modes only. */
  function ModerAfter(moder: bv32, c: PinConfig): bv32
    requires c.pinNumber < 16
  {
    if c.pinMode <= GPIO_MODE_ANALOG then WritePair(moder, c.pinMode, c.pinNumber) else moder
  }

  /** FTSR after `GPIO_Init`: set for falling and both edges, cleared for rising. */
  function FtsrAfter(ftsr: bv32, c: PinConfig): bv32
    requires c.pinNumber < 16
  {
    if c.pinMode == GPIO_MODE_IT_FT || c.pinMode == GPIO_MODE_IT_RFT then SetBits(ftsr, PinBit(c.pinNumber))
    else if c.pinMode == GPIO_MODE_IT_RT then ClearBits(ftsr, PinBit(c.pinNumber))
    else ftsr
  }

  /** RTSR after `GPIO_Init`: set for rising and both edges, cleared for falling. */
  function RtsrAfter(rtsr: bv32, c: PinConfig): bv32
    requires c.pinNumber < 16
  {
    if c.pinMode == GPIO_MODE_IT_RT || c.pinMode == GPIO_MODE_IT_RFT then SetBits(rtsr, PinBit(c.pinNumber))
    else if c.pinMode == GPIO_MODE_IT_FT then ClearBits(rtsr, PinBit(c.pinNumber))
    else rtsr
  }

  /** EXTICR after `GPIO_Init`: for every mode above ANALOG, the port code in nibble `p % 4` of word `p / 4`. */
  function ExticrAfter(exticr: seq<bv32>, c: PinConfig, port: Port): (r: seq<bv32>)
    requires c.pinNumber < 16 && |exticr| == 4
    ensures |r| == 4
  {
    var k := ExticrWord(c.pinNumber);
    if c.pinMode > GPIO_MODE_ANALOG then exticr[k := WriteNibble(exticr[k], PortCode(port), ExticrNibble(c.pinNumber))] else exticr
  }

  /** IMR after `GPIO_Init`: the line unmasked for every mode above ANALOG. */
  function ImrAfter(imr: bv32, c: PinConfig): bv32
    requires c.pinNumber < 16
  {
    if c.pinMode > GPIO_MODE_ANALOG then SetBits(imr, PinBit(c.pinNumber)) else imr
  }

  /** AFR after `GPIO_Init`: in ALTFN mode, the function number in nibble `p % 8` of word `p / 8`. */
  function AfrAfter(afr: seq<bv32>, c: PinConfig): (r: seq<bv32>)
    requires c.pinNumber < 16 && |afr| == 2
    ensures |r| == 2
  {
    var k := AfrWord(c.pinNumber);
    if c.pinMode == GPIO_MODE_ALTFN then afr[k := WriteNibble(afr[k], c.pinAltFunMode as bv32, AfrNibble(c.pinNumber))] else afr
  }

  /** The non-interrupt modes write the pin's MODER pair; the interrupt modes leave MODER. */
  lemma ModerAfterPin(moder: bv32, c: PinConfig)
    requires c.pinNumber < 16
    ensures c.pinMode <= GPIO_MODE_ANALOG ==> ReadPair(ModerAfter(moder, c), c.pinNumber) == c.pinMode as bv32
    ensures c.pinMode > GPIO_MODE_ANALOG ==> ModerAfter(moder, c) == moder
  {
    if c.pinMode <= GPIO_MODE_ANALOG {
      PairField(moder, c.pinMode, c.pinNumber);
    }
  }

  /** Every other pin's MODER pair is kept. */
  lemma ModerAfterOthers(moder: bv32, c: PinConfig, q: bv8)
    requires c.pinNumber < 16 && q < 16 && q != c.pinNumber && c.pinMode <= GPIO_MODE_ANALOG
    ensures ReadPair(ModerAfter(moder, c), q) == ReadPair(moder, q)
  {
    OtherPairs(moder, c.pinMode, c.pinNumber, q);
  }

  /** The pin's mask is a single set bit. */
  lemma PinBitSet(p: bv8)
    requires p < 16
    ensures PinBit(p) != 0
  {
  }

  /** Falling edge: FTSR's bit set, RTSR's cleared, every other line kept. */
  lemma EdgesFalling(ftsr: bv32, rtsr: bv32, c: PinConfig)
    requires c.pinNumber < 16 && c.pinMode == GPIO_MODE_IT_FT
    ensures FtsrAfter(ftsr, c) == SetBits(ftsr, PinBit(c.pinNumber)) && RtsrAfter(rtsr, c) == ClearBits(rtsr, PinBit(c.pinNumber))
    ensures FtsrAfter(ftsr, c) & PinBit(c.pinNumber) != 0 && RtsrAfter(rtsr, c) & PinBit(c.pinNumber) == 0
  {
    PinBitSet(c.pinNumber);
  }

  /** Rising edge: RTSR's bit set, FTSR's cleared. */
  lemma EdgesRising(ftsr: bv32, rtsr: bv32, c: PinConfig)
    requires c.pinNumber < 16 && c.pinMode == GPIO_MODE_IT_RT
    ensures FtsrAfter(ftsr, c) == ClearBits(ftsr, PinBit(c.pinNumber)) && RtsrAfter(rtsr, c) == SetBits(rtsr, PinBit(c.pinNumber))
    ensures FtsrAfter(ftsr, c) & PinBit(c.pinNumber) == 0 && RtsrAfter(rtsr, c) & PinBit(c.pinNumber) != 0
  {
    PinBitSet(c.pinNumber);
  }

  /** Both edges: both bits set. */
  lemma EdgesBoth(ftsr: bv32, rtsr: bv32, c: PinConfig)
    requires c.pinNumber < 16 && c.pinMode == GPIO_MODE_IT_RFT
    ensures FtsrAfter(ftsr, c) == SetBits(ftsr, PinBit(c.pinNumber)) && RtsrAfter(rtsr, c) == SetBits(rtsr, PinBit(c.pinNumber))
    ensures FtsrAfter(ftsr, c) & PinBit(c.pinNumber) != 0 && RtsrAfter(rtsr, c) & PinBit(c.pinNumber) != 0
  {
    PinBitSet(c.pinNumber);
  }

  /** Every other mode selects no edge: a mode above RFT still unmasks the line, with neither trigger changed. */
  lemma EdgesNone(ftsr: bv32, rtsr: bv32, imr: bv32, c: PinConfig)
    requires c.pinNumber < 16 && c.pinMode > GPIO_MODE_IT_RFT
    ensures FtsrAfter(ftsr, c) == ftsr && RtsrAfter(rtsr, c) == rtsr
    ensures ImrAfter(imr, c) & PinBit(c.pinNumber) != 0
  {
    PinBitSet(c.pinNumber);
  }

  /** In every interrupt mode the line's EXTICR nibble holds the port code and the other EXTICR words are kept. */
  lemma ExticrAfterExact(exticr: seq<bv32>, c: PinConfig, port: Port)
    requires c.pinNumber < 16 && |exticr| == 4 && c.pinMode > GPIO_MODE_ANALOG
    ensures var k := ExticrWord(c.pinNumber);
      ReadNibble(ExticrAfter(exticr, c, port)[k], ExticrNibble(c.pinNumber)) == PortCode(port)
      && (forall j :: 0 <= j < 4 && j != k ==> ExticrAfter(exticr, c, port)[j] == exticr[j])
  {
    NibbleField(exticr[ExticrWord(c.pinNumber)], PortCode(port), ExticrNibble(c.pinNumber));
  }

  /** In ALTFN mode the pin's AFR nibble holds the function number (0..15) and the other AFR word is kept. */
  lemma AfrAfterExact(afr: seq<bv32>, c: PinConfig)
    requires c.pinNumber < 16 && |afr| == 2 && c.pinMode == GPIO_MODE_ALTFN && c.pinAltFunMode < 16
    ensures var k := AfrWord(c.pinNumber);
      ReadNibble(AfrAfter(afr, c)[k], AfrNibble(c.pinNumber)) == c.pinAltFunMode as bv32
      && AfrAfter(afr, c)[1 - k] == afr[1 - k]
  {
    var k := AfrWord(c.pinNumber);
    var pos := AfrNibble(c.pinNumber);
    var word := WriteNibble(afr[k], c.pinAltFunMode as bv32, pos);
    assert AfrAfter(afr, c) == afr[k := word];
    NibbleField(afr[k], c.pinAltFunMode as bv32, pos);
  }

  /** A GPIO handle: the port, its registers and the pin configuration. */
  class GpioHandle {
    const port: Port
    const regs: GpioRegs
    const config: PinConfig

    constructor (port: Port, regs: GpioRegs, config: PinConfig)
      ensures this.port == port && this.regs == regs && this.config == config
    {
      this.port, this.regs, this.config := port, regs, config;
    }

    /** `GPIO_Init` for pins 0..15 (the clock enables are left out): the mode, then the output settings, then the alternate function. */
    method Init(exti: ExtiRegs, syscfg: SyscfgRegs)
      requires config.pinNumber < 16 && |regs.AFR| == 2 && |syscfg.EXTICR| == 4
      modifies regs`MODER, regs`OSPEEDR, regs`PUPDR, regs`OTYPER, regs`AFR
      modifies exti`FTSR, exti`RTSR, exti`IMR, syscfg`EXTICR
      ensures regs.MODER == ModerAfter(old(regs.MODER), config)
      ensures exti.FTSR == FtsrAfter(old(exti.FTSR), config) && exti.RTSR == RtsrAfter(old(exti.RTSR), config)
      ensures syscfg.EXTICR == ExticrAfter(old(syscfg.EXTICR), config, port)
      ensures exti.IMR == ImrAfter(old(exti.IMR), config)
      ensures regs.OSPEEDR == WritePair(old(regs.OSPEEDR), config.pinSpeed, config.pinNumber)
      ensures regs.PUPDR == WritePair(old(regs.PUPDR), config.pinPuPdControl, config.pinNumber)
      ensures regs.OTYPER == WriteBit(old(regs.OTYPER), config.pinOpType, config.pinNumber)
      ensures regs.AFR == AfrAfter(old(regs.AFR), config)
    {
      ConfigureMode(exti, syscfg);
      ConfigureOutput();
      ConfigureAltFn();
    }

    /** Step 1 of `GPIO_Init`: MODER for the non-interrupt modes; edges, EXTICR and IMR for the others. */
    method ConfigureMode(exti: ExtiRegs, syscfg: SyscfgRegs)
      requires config.pinNumber < 16 && |syscfg.EXTICR| == 4
      modifies regs`MODER, exti`FTSR, exti`RTSR, exti`IMR, syscfg`EXTICR
      ensures regs.MODER == ModerAfter(old(regs.MODER), config)
      ensures exti.FTSR == FtsrAfter(old(exti.FTSR), config) && exti.RTSR == RtsrAfter(old(exti.RTSR), config)
      ensures syscfg.EXTICR == ExticrAfter(old(syscfg.EXTICR), config, port)
      ensures exti.IMR == ImrAfter(old(exti.IMR), config)
    {
      var pin := config.pinNumber;
      if config.pinMode <= GPIO_MODE_ANALOG {
        regs.MODER := WritePair(regs.MODER, config.pinMode, pin);
      } else {
        if config.pinMode == GPIO_MODE_IT_FT {
          exti.FTSR := SetBits(exti.FTSR, PinBit(pin));
          exti.RTSR := ClearBits(exti.RTSR, PinBit(pin));
        } else if config.pinMode == GPIO_MODE_IT_RT {
          exti.RTSR := SetBits(exti.RTSR, PinBit(pin));
          exti.FTSR := ClearBits(exti.FTSR, PinBit(pin));
        } else if config.pinMode == GPIO_MODE_IT_RFT {
          exti.RTSR := SetBits(exti.RTSR, PinBit(pin));
          exti.FTSR := SetBits(exti.FTSR, PinBit(pin));
        }
        var temp1 := ExticrWord(pin);
        var temp2 := ExticrNibble(pin);
        var portcode := PortCode(port);
        syscfg.EXTICR := syscfg.EXTICR[temp1 := WriteNibble(syscfg.EXTICR[temp1], portcode, temp2)];
        exti.IMR := SetBits(exti.IMR, PinBit(pin));
      }
    }

    /** Steps 2 to 4 of `GPIO_Init`: the speed, pull-up/pull-down and output-type fields. */
    method ConfigureOutput()
      requires config.pinNumber < 16
      modifies regs`OSPEEDR, regs`PUPDR, regs`OTYPER
      ensures regs.OSPEEDR == WritePair(old(regs.OSPEEDR), config.pinSpeed, config.pinNumber)
      ensures regs.PUPDR == WritePair(old(regs.PUPDR), config.pinPuPdControl, config.pinNumber)
      ensures regs.OTYPER == WriteBit(old(regs.OTYPER), config.pinOpType, config.pinNumber)
    {
      var pin := config.pinNumber;
      regs.OSPEEDR := WritePair(regs.OSPEEDR, config.pinSpeed, pin);
      regs.PUPDR := WritePair(regs.PUPDR, config.pinPuPdControl, pin);
      regs.OTYPER := WriteBit(regs.OTYPER, config.pinOpType, pin);
    }

    /** Step 5 of `GPIO_Init`: the alternate-function nibble, in ALTFN mode only. */
    method ConfigureAltFn()
      requires config.pinNumber < 16 && |regs.AFR| == 2
      modifies regs`AFR
      ensures regs.AFR == AfrAfter(old(regs.AFR), config)
    {
      var pin := config.pinNumber;
      if config.pinMode == GPIO_MODE_ALTFN {
        var temp1 := AfrWord(pin);
        var temp2 := AfrNibble(pin);
        regs.AFR := regs.AFR[temp1 := WriteNibble(regs.AFR[temp1], config.pinAltFunMode as bv32, temp2)];
      }
    }
  }
}
