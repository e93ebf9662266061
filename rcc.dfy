/**
 * The RCC driver (`drivers/Src/stm32f407xx_rcc_driver.c`): the APB1 and
 * APB2 peripheral clock frequencies the USART and I2C drivers divide by,
 * decoded from the clock configuration register CFGR.
 *
 * CFGR is read once and held as `bv32`; the fields are extracted into the
 * driver's `uint8_t` temporaries, which here are naturals below 16. The
 * prescaler divisors are compared with the encoding of section 7.3.3 of the
 * STM32F407 reference manual (RM0090).
 */
module Rcc {
  import opened Bits

  const RCC_CFGR_HPRE: bv32 := 4
  const RCC_CFGR_PPRE1: bv32 := 10
  const RCC_CFGR_PPRE2: bv32 := 13

  /** The internal 16 MHz oscillator (HSI) and the board's 8 MHz crystal (HSE). */
  const HSI_CLOCK: uint32 := 16000000
  const HSE_CLOCK: uint32 := 8000000

  /** `RCC_GetPLLOutputClock`: a stub that answers 8 MHz whatever the PLL settings. */
  const PLL_OUTPUT_CLOCK: uint32 := 8000000

  /** `AHB_PreScaler`, a `uint16_t` table. */
  const AHB_PRESCALER: seq<uint16> := [2, 4, 8, 16, 64, 128, 256, 512]

  /** `APB1_2_PreScaler`, a `uint8_t` table shared by APB1 and APB2. */
  const APB_PRESCALER: seq<byte> := [2, 4, 8, 16]

  /** `clksrc`: CFGR bits 3:2, the system clock switch status. */
  function ClockSource(cfgr: bv32): (s: nat)
    ensures s < 4
  {
    ((cfgr >> 2) & 3) as int
  }

  /** The AHB prescaler field, CFGR bits 7:4. */
  function Hpre(cfgr: bv32): (h: nat)
    ensures h < 16
  {
    ((cfgr >> RCC_CFGR_HPRE) & 0xF) as int
  }

  /** The APB1 prescaler field, CFGR bits 12:10. */
  function Ppre1(cfgr: bv32): (p: nat)
    ensures p < 8
  {
    ((cfgr >> RCC_CFGR_PPRE1) & 0x7) as int
  }

  /** The APB2 prescaler field, CFGR bits 15:13. */
  function Ppre2(cfgr: bv32): (p: nat)
    ensures p < 8
  {
    ((cfgr >> RCC_CFGR_PPRE2) & 0x7) as int
  }

  /**
   * `SystemClk`: HSI for source 0, HSE for 1, the PLL for 2. Source 3 is
   * not a valid switch status and leaves `SystemClk` unassigned in the
   * driver, so it is excluded.
   */
  function SystemClock(cfgr: bv32): (f: uint32)
    requires ClockSource(cfgr) != 3
    ensures f == HSI_CLOCK <==> ClockSource(cfgr) == 0
    ensures f == HSE_CLOCK <==> ClockSource(cfgr) != 0
  {
    var clksrc := ClockSource(cfgr);
    if clksrc == 0 then HSI_CLOCK
    else if clksrc == 1 then HSE_CLOCK
    else PLL_OUTPUT_CLOCK
  }

  /**
   * `ahbp`: 1 for a field below 8, otherwise the table entry stored into a
   * `uint8_t`, which turns 256 and 512 into 0.
   */
  function AhbDivisor(hpre: nat): byte
    requires hpre < 16
  {
    if hpre < 8 then 1 else LowByte(AHB_PRESCALER[hpre - 8])
  }

  /** `apb1p` / `apb2p`: 1 for a field below 4, otherwise the table entry. */
  function ApbDivisor(ppre: nat): byte
    requires ppre < 8
  {
    if ppre < 4 then 1 else APB_PRESCALER[ppre - 4]
  }

  /** `2^n`. */
  function Pow2(n: nat): (p: nat)
    ensures p > 0
  {
    if n == 0 then 1 else 2 * Pow2(n - 1)
  }

  /** HPRE as the reference manual encodes it: undivided for 0xxx, then 2, 4, 8, 16, and 64 to 512 (32 is skipped). */
  function ManualAhbDivisor(hpre: nat): nat
    requires hpre < 16
  {
    if hpre < 8 then 1 else if hpre < 12 then Pow2(hpre - 7) else Pow2(hpre - 6)
  }

  /** PPRE1 and PPRE2 as the reference manual encodes them: undivided for 0xx, then 2, 4, 8, 16. */
  function ManualApbDivisor(ppre: nat): nat
    requires ppre < 8
  {
    if ppre < 4 then 1 else Pow2(ppre - 3)
  }

  /** `RCC_GetPCLK1Value`: `(SystemClk / ahbp) / apb1p`. */
  function GetPclk1Value(cfgr: bv32): (pclk1: uint32)
    requires ClockSource(cfgr) != 3 && Hpre(cfgr) < 14
    ensures 0 < pclk1 <= SystemClock(cfgr)
  {
    AhbDivisorMatchesManual(Hpre(cfgr));
    ApbDivisorMatchesManual(Ppre1(cfgr));
    DivShrinks(SystemClock(cfgr), AhbDivisor(Hpre(cfgr)), 62500);
    DivShrinks(SystemClock(cfgr) / AhbDivisor(Hpre(cfgr)), ApbDivisor(Ppre1(cfgr)), 1);
    (SystemClock(cfgr) / AhbDivisor(Hpre(cfgr))) / ApbDivisor(Ppre1(cfgr))
  }

  /** `RCC_GetPCLK2Value`: the same computation with the APB2 field. */
  function GetPclk2Value(cfgr: bv32): (pclk2: uint32)
    requires ClockSource(cfgr) != 3 && Hpre(cfgr) < 14
    ensures 0 < pclk2 <= SystemClock(cfgr)
  {
    AhbDivisorMatchesManual(Hpre(cfgr));
    ApbDivisorMatchesManual(Ppre2(cfgr));
    DivShrinks(SystemClock(cfgr), AhbDivisor(Hpre(cfgr)), 62500);
    DivShrinks(SystemClock(cfgr) / AhbDivisor(Hpre(cfgr)), ApbDivisor(Ppre2(cfgr)), 1);
    (SystemClock(cfgr) / AhbDivisor(Hpre(cfgr))) / ApbDivisor(Ppre2(cfgr))
  }

  /**
   * The driver's AHB divisor is the manual's for every field up to 13; for
   * 14 and 15 the manual divides by 256 and 512 but the driver's `uint8_t`
   * holds 0.
   */
  lemma AhbDivisorMatchesManual(hpre: nat)
    requires hpre < 16
    ensures hpre < 14 ==> AhbDivisor(hpre) == ManualAhbDivisor(hpre) && 1 <= AhbDivisor(hpre) <= 128
    ensures hpre >= 14 ==> AhbDivisor(hpre) == 0 && ManualAhbDivisor(hpre) >= 256
  {
    if hpre >= 8 {
      Pow2Values(hpre - 7);
      Pow2Values(hpre - 6);
    }
  }

  /** The driver's APB divisor is the manual's for every field. */
  lemma ApbDivisorMatchesManual(ppre: nat)
    requires ppre < 8
    ensures ApbDivisor(ppre) == ManualApbDivisor(ppre)
    ensures 1 <= ApbDivisor(ppre) <= 16
  {
    if ppre >= 4 {
      Pow2Values(ppre - 3);
    }
  }

  /** The powers of two the tables hold. */
  lemma Pow2Values(n: nat)
    requires 1 <= n <= 9
    ensures n == 1 ==> Pow2(n) == 2
    ensures n == 2 ==> Pow2(n) == 4
    ensures n == 3 ==> Pow2(n) == 8
    ensures n == 4 ==> Pow2(n) == 16
    ensures n == 6 ==> Pow2(n) == 64
    ensures n == 7 ==> Pow2(n) == 128
    ensures n == 8 ==> Pow2(n) == 256
    ensures n == 9 ==> Pow2(n) == 512
  {
    assert Pow2(1) == 2 && Pow2(2) == 4 && Pow2(3) == 8 && Pow2(4) == 16;
  }

  /** Dividing by a positive divisor shrinks, and keeps every lower bound `k` with `x >= d * k`. */
  lemma DivShrinks(x: nat, d: nat, k: nat)
    requires d > 0
    ensures x / d <= x
    ensures x >= d * k ==> x / d >= k
  {
    MulAtLeast(d, x / d);
    MulSplit(d, k - x / d);
  }

  /** Dividing twice, rounding down each time, is dividing once by the product. */
  lemma DivDiv(a: nat, b: nat, c: nat)
    requires b > 0 && c > 0
    ensures (a / b) / c == a / (b * c)
  {
    var q, r := a / b, a % b;
    var q2, r2 := q / c, q % c;
    MulSpread(b, c, q2, r2);
    MulBelow(b, c, r2);
    DivUnique(a, b * c, q2, b * r2 + r);
  }

  /** Euclidean division is unique. */
  lemma DivUnique(a: int, d: int, q: int, r: int)
    requires d > 0 && 0 <= r < d && a == d * q + r
    ensures a / d == q
  {
    var q0, r0 := a / d, a % d;
    assert d * (q - q0) == r0 - r;
    MulSplit(d, q - q0);
  }

  /** `b * (c * q + r) == (b * c) * q + b * r`. */
  lemma MulSpread(b: int, c: int, q: int, r: int)
    ensures b * (c * q + r) == (b * c) * q + b * r
  {
  }

  /** A remainder below `c`, scaled by `b`, stays `b` below `b * c`. */
  lemma MulBelow(b: nat, c: nat, r: nat)
    requires r < c
    ensures 0 <= b * r <= b * c - b
  {
    MulNonneg(b, c - 1 - r);
    MulNonneg(b, r);
  }

  /** A positive multiple of `d` is at least `d`, a negative one at most `-d`. */
  lemma MulSplit(d: int, k: int)
    requires d >= 0
    ensures k >= 1 ==> d * k >= d
    ensures k <= -1 ==> d * k <= -d
  {
    if k >= 1 {
      MulNonneg(d, k - 1);
    } else if k <= -1 {
      MulNonneg(d, -k - 1);
    }
  }

  /** Multiplying by a positive factor does not shrink. */
  lemma MulAtLeast(d: nat, q: nat)
    requires d >= 1
    ensures d * q >= q
  {
    MulNonneg(d - 1, q);
  }

  /** A product of naturals is a natural. */
  lemma MulNonneg(x: nat, y: nat)
    ensures x * y >= 0
  {
  }

  /** The peripheral clock is the system clock divided once by the two prescalers of the reference manual. */
  lemma Pclk1Exact(cfgr: bv32)
    requires ClockSource(cfgr) != 3 && Hpre(cfgr) < 14
    ensures GetPclk1Value(cfgr) == SystemClock(cfgr) / (ManualAhbDivisor(Hpre(cfgr)) * ManualApbDivisor(Ppre1(cfgr)))
  {
    AhbDivisorMatchesManual(Hpre(cfgr));
    ApbDivisorMatchesManual(Ppre1(cfgr));
    DivDiv(SystemClock(cfgr), AhbDivisor(Hpre(cfgr)), ApbDivisor(Ppre1(cfgr)));
  }

  /** The same for the APB2 clock. */
  lemma Pclk2Exact(cfgr: bv32)
    requires ClockSource(cfgr) != 3 && Hpre(cfgr) < 14
    ensures GetPclk2Value(cfgr) == SystemClock(cfgr) / (ManualAhbDivisor(Hpre(cfgr)) * ManualApbDivisor(Ppre2(cfgr)))
  {
    AhbDivisorMatchesManual(Hpre(cfgr));
    ApbDivisorMatchesManual(Ppre2(cfgr));
    DivDiv(SystemClock(cfgr), AhbDivisor(Hpre(cfgr)), ApbDivisor(Ppre2(cfgr)));
  }

  /** After reset CFGR is 0: HSI undivided, 16 MHz on both buses. */
  lemma ResetClocks()
    ensures GetPclk1Value(0) == 16000000 && GetPclk2Value(0) == 16000000
  {
    assert ClockSource(0) == 0 && Hpre(0) == 0 && Ppre1(0) == 0 && Ppre2(0) == 0;
  }

  /** The two buses run at the same frequency exactly when their prescaler fields decode to the same divisor. */
  lemma BusesAgree(cfgr: bv32)
    requires ClockSource(cfgr) != 3 && Hpre(cfgr) < 14
    ensures ApbDivisor(Ppre1(cfgr)) == ApbDivisor(Ppre2(cfgr)) ==> GetPclk1Value(cfgr) == GetPclk2Value(cfgr)
    ensures Ppre1(cfgr) < Ppre2(cfgr) && Ppre2(cfgr) >= 4 ==> GetPclk2Value(cfgr) <= GetPclk1Value(cfgr)
  {
  }
}
