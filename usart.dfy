/**
 * The USART driver (`drivers/Src/stm32f407xx_usart_driver.c`): control
 * register composition in `USART_Init`, the BRR arithmetic of
 * `USART_SetBaudRate`, blocking send and receive, and the interrupt-driven
 * transfer state kept in the handle (`TxLen`, `RxLen`, `TxState`, `RxState`,
 * the buffer pointers) that `USART_IRQHandling` advances.
 *
 * Control registers are `bv32`; data values (frames put into or taken from
 * DR, buffer bytes) are integers, where `v & 0x1FF`, `& 0xFF` and `& 0x7F`
 * are `% 512`, `% 256` and `% 128`. The application buffers are sequences:
 * `txBuf` with the read position `txPos` stands for `pTxBuffer`, and the
 * bytes stored through `pRxBuffer` are `rxStored`, in order.
 */
module Usart {
  import opened Bits
  import Seqs

  const USART_MODE_ONLY_TX: byte := 0
  const USART_MODE_ONLY_RX: byte := 1
  const USART_MODE_TXRX: byte := 2

  const USART_WORD_LENGTH_8: byte := 0
  const USART_WORD_LENGTH_9: byte := 1

  const USART_PARITY_CONTROL_DI: byte := 0
  const USART_PARITY_CONTROL_EN_ODD: byte := 1
  const USART_PARITY_CONTROL_EN_EVEN: byte := 2

  const USART_HW_FLOW_CONTROL_NONE: byte := 0
  const USART_HW_FLOW_CONTROL_CTS: byte := 1
  const USART_HW_FLOW_CONTROL_RTS: byte := 2
  const USART_HW_FLOW_CONTROL_CTS_RTS: byte := 3

  const CR1_RE: bv32 := 1 << 2
  const CR1_TE: bv32 := 1 << 3
  const CR1_RXNEIE: bv32 := 1 << 5
  const CR1_TCIE: bv32 := 1 << 6
  const CR1_TXEIE: bv32 := 1 << 7
  const CR1_PS: bv32 := 1 << 9
  const CR1_PCE: bv32 := 1 << 10
  const CR1_M: bv32 := 1 << 12
  const CR1_UE: bv32 := 1 << 13
  const CR1_OVER8: bv32 := 1 << 15
  const CR2_STOP_POS: bv32 := 12
  const CR3_EIE: bv32 := 1 << 0
  const CR3_RTSE: bv32 := 1 << 8
  const CR3_CTSE: bv32 := 1 << 9

  const SR_FE: bv32 := 1 << 1
  const SR_ORE: bv32 := 1 << 3
  const SR_IDLE: bv32 := 1 << 4
  const SR_RXNE: bv32 := 1 << 5
  const SR_TC: bv32 := 1 << 6
  const SR_TXE: bv32 := 1 << 7
  const SR_CTS: bv32 := 1 << 9
  /** The bit positions `USART_SR_ORE` (3) and `USART_CR1_RXNEIE` (5), which the overrun test uses as masks. */
  const SR_ORE_POSITION_MASK: bv32 := 3
  const CR1_RXNEIE_POSITION_MASK: bv32 := 5

  const USART_READY: byte := 0
  const USART_BUSY_IN_TX: byte := 1
  const USART_BUSY_IN_RX: byte := 2

  const USART_EVENT_RX_CMPLT: nat := 0
  const USART_EVENT_TX_CMPLT: nat := 1
  const USART_EVENT_CTS: nat := 2
  const USART_EVENT_IDLE: nat := 3
  const USART_EVENT_ORE: nat := 4
  const USART_ERREVENT_FE: nat := 5
  const USART_ERREVENT_NE: nat := 6
  const USART_ERREVENT_ORE: nat := 7

  const U32: nat := 0x1_0000_0000

  datatype Port = USART1 | USART2 | USART3 | UART4 | UART5 | USART6

  // ----- USART_Init: the control registers -----

  /** The mode bits of CR1: RE only, TE only, or both for any other mode value. */
  function ModeBits(mode: byte): bv32
  {
    if mode == USART_MODE_ONLY_RX then CR1_RE
    else if mode == USART_MODE_ONLY_TX then CR1_TE
    else CR1_RE | CR1_TE
  }

  /** The parity bits of CR1: PCE and PS for odd, PCE for even, none otherwise. */
  function ParityBits(parity: byte): bv32
  {
    if parity == USART_PARITY_CONTROL_EN_ODD then CR1_PCE | CR1_PS
    else if parity == USART_PARITY_CONTROL_EN_EVEN then CR1_PCE
    else 0
  }

  /** CR1 as `USART_Init` assigns it: mode, `WordLength << M`, parity. */
  function Cr1Config(mode: byte, wordLength: byte, parity: byte): bv32
  {
    ModeBits(mode) | ((wordLength as bv32) << 12) | ParityBits(parity)
  }

  /** CR2 as `USART_Init` assigns it: `NoOfStopBits << STOP`. */
  function Cr2Config(stopBits: byte): bv32
  {
    (stopBits as bv32) << CR2_STOP_POS
  }

  /** CR3 as `USART_Init` assigns it: CTSE and/or RTSE by flow-control mode. */
  function Cr3Config(flow: byte): bv32
  {
    if flow == USART_HW_FLOW_CONTROL_CTS then CR3_CTSE
    else if flow == USART_HW_FLOW_CONTROL_RTS then CR3_RTSE
    else if flow == USART_HW_FLOW_CONTROL_CTS_RTS then CR3_CTSE | CR3_RTSE
    else 0
  }

  /** RE is set unless the mode is TX only; TE unless it is RX only. */
  lemma ModeBitsExact(mode: byte)
    ensures (ModeBits(mode) & CR1_RE != 0) <==> mode != USART_MODE_ONLY_TX
    ensures (ModeBits(mode) & CR1_TE != 0) <==> mode != USART_MODE_ONLY_RX
    ensures ModeBits(mode) & !(CR1_RE | CR1_TE) == 0
  {
    if mode == USART_MODE_ONLY_RX {
    } else if mode == USART_MODE_ONLY_TX {
    } else {
      assert ModeBits(mode) == CR1_RE | CR1_TE;
    }
  }

  /** PCE is set iff parity is enabled (odd or even), PS iff it is odd. */
  lemma ParityBitsExact(parity: byte)
    ensures (ParityBits(parity) & CR1_PCE != 0) <==> parity == USART_PARITY_CONTROL_EN_ODD || parity == USART_PARITY_CONTROL_EN_EVEN
    ensures (ParityBits(parity) & CR1_PS != 0) <==> parity == USART_PARITY_CONTROL_EN_ODD
    ensures ParityBits(parity) & !(CR1_PCE | CR1_PS) == 0
  {
    if parity == USART_PARITY_CONTROL_EN_ODD {
    } else if parity == USART_PARITY_CONTROL_EN_EVEN {
    } else {
      assert ParityBits(parity) == 0;
    }
  }

  /** With a valid word length (0 or 1), M is set iff it is 9 bits, and OVER8 and UE are clear. */
  lemma WordBits(wordLength: byte)
    requires wordLength <= USART_WORD_LENGTH_9
    ensures (((wordLength as bv32) << 12) & CR1_M != 0) <==> wordLength == USART_WORD_LENGTH_9
    ensures ((wordLength as bv32) << 12) & !CR1_M == 0
  {
    if wordLength == 0 {
      assert (wordLength as bv32) << 12 == 0;
    } else {
      assert (wordLength as bv32) << 12 == CR1_M;
    }
  }

  /**
   * CR1 is assigned, not OR-ed: a valid configuration leaves OVER8 (and UE)
   * clear, so `USART_Init` always computes the baud rate for 16-fold oversampling.
   */
  lemma Cr1ConfigClearsOver8(mode: byte, wordLength: byte, parity: byte)
    requires wordLength <= USART_WORD_LENGTH_9
    ensures Cr1Config(mode, wordLength, parity) & CR1_OVER8 == 0
    ensures Cr1Config(mode, wordLength, parity) & CR1_UE == 0
  {
    var m, w, p := ModeBits(mode), (wordLength as bv32) << 12, ParityBits(parity);
    ModeBitsExact(mode);
    ParityBitsExact(parity);
    WordBits(wordLength);
    assert m & (CR1_OVER8 | CR1_UE) == 0 && p & (CR1_OVER8 | CR1_UE) == 0 && w & (CR1_OVER8 | CR1_UE) == 0;
  }

  /** CR2 holds the stop-bit code in bits 12..13 and nothing else. */
  lemma Cr2ConfigField(stopBits: byte)
    requires stopBits <= 3
    ensures (Cr2Config(stopBits) >> 12) & 3 == stopBits as bv32
    ensures Cr2Config(stopBits) & !(3 << 12) == 0
  {
    if stopBits == 0 {
      assert Cr2Config(stopBits) == 0;
    } else if stopBits == 1 {
      assert Cr2Config(stopBits) == 1 << 12;
    } else if stopBits == 2 {
      assert Cr2Config(stopBits) == 2 << 12;
    } else {
      assert Cr2Config(stopBits) == 3 << 12;
    }
  }

  /** CTSE is set for CTS and CTS_RTS, RTSE for RTS and CTS_RTS, and nothing else is set. */
  lemma Cr3ConfigExact(flow: byte)
    ensures (Cr3Config(flow) & CR3_CTSE != 0) <==> flow == USART_HW_FLOW_CONTROL_CTS || flow == USART_HW_FLOW_CONTROL_CTS_RTS
    ensures (Cr3Config(flow) & CR3_RTSE != 0) <==> flow == USART_HW_FLOW_CONTROL_RTS || flow == USART_HW_FLOW_CONTROL_CTS_RTS
    ensures Cr3Config(flow) & !(CR3_CTSE | CR3_RTSE) == 0
  {
    if flow == USART_HW_FLOW_CONTROL_CTS {
    } else if flow == USART_HW_FLOW_CONTROL_RTS {
    } else if flow == USART_HW_FLOW_CONTROL_CTS_RTS {
      assert Cr3Config(flow) == CR3_CTSE | CR3_RTSE;
    } else {
      assert Cr3Config(flow) == 0;
    }
  }

  // ----- USART_SetBaudRate -----

  /** The APB clock of a port: PCLK2 for USART1 and USART6, PCLK1 for the others. */
  function PortClock(port: Port, pclk1: uint32, pclk2: uint32): uint32
  {
    if port == USART1 || port == USART6 then pclk2 else pclk1
  }

  /** The divisor `2 * BaudRate` (OVER8) or `4 * BaudRate`, in 32 bits. */
  function BaudDivisor(baud: uint32, over8: bool): nat
  {
    (if over8 then 2 * baud else 4 * baud) % U32
  }

  /** `usartdiv`: 100 times USARTDIV, truncated, with `25 * PCLKx` computed in 32 bits. */
  function UsartDiv(pclk: uint32, baud: uint32, over8: bool): nat
    requires BaudDivisor(baud, over8) != 0
  {
    ((25 * pclk) % U32) / BaudDivisor(baud, over8)
  }

  /** `F_part`: the hundredths rounded to sixteenths (eighths with OVER8), masked to 4 (3) bits. */
  function Fraction(hundredths: nat, over8: bool): (f: nat)
    requires hundredths < 100
    ensures f < (if over8 then 8 else 16)
  {
    if over8 then ((hundredths * 8 + 50) / 100) % 8 else ((hundredths * 16 + 50) / 100) % 16
  }

  /** `(M_part << 4) | F_part`, the BRR value. */
  function BrrValue(div: nat, over8: bool): nat
  {
    (div / 100) * 16 + Fraction(div % 100, over8)
  }

  /** BRR of a port at a baud rate. */
  function Brr(pclk: uint32, baud: uint32, over8: bool): nat
    requires BaudDivisor(baud, over8) != 0
  {
    BrrValue(UsartDiv(pclk, baud, over8), over8)
  }

  /** `usartdiv - M_part * 100` is the hundredths of usartdiv. */
  lemma HundredthsPart(div: nat)
    ensures div - (div / 100) * 100 == div % 100
  {
  }

  /** The mantissa field (bits 4 and up) is `usartdiv / 100` and the fraction field is below 16 (8 with OVER8). */
  lemma BrrFields(div: nat, over8: bool)
    ensures BrrValue(div, over8) / 16 == div / 100
    ensures BrrValue(div, over8) % 16 == Fraction(div % 100, over8)
  {
    var m, f := div / 100, Fraction(div % 100, over8);
    assert BrrValue(div, over8) == m * 16 + f;
  }

  /**
   * Without OVER8, as long as the hundredths stay below 97 the BRR value is
   * `16 * usartdiv / 100` rounded: within half a sixteenth.
   */
  lemma BrrRounds(div: nat)
    requires div % 100 < 97
    ensures -50 <= 100 * BrrValue(div, false) - 16 * div <= 50
  {
    var m, r := div / 100, div % 100;
    var f := (r * 16 + 50) / 100;
    assert f < 16;
    assert Fraction(r, false) == f;
    assert div == 100 * m + r;
    assert 100 * f <= r * 16 + 50 < 100 * f + 100;
  }

  /**
   * Hundredths of 97 and more round to sixteen sixteenths, which the 4-bit
   * mask turns into 0 instead of carrying into the mantissa: BRR is then
   * almost one whole unit below `16 * usartdiv / 100`.
   */
  lemma FractionNotCarried(div: nat)
    requires div % 100 >= 97
    ensures BrrValue(div, false) == (div / 100) * 16
    ensures 16 * div - 100 * BrrValue(div, false) >= 1552
  {
    var r := div % 100;
    assert 1602 <= r * 16 + 50 < 1700;
    assert (r * 16 + 50) / 100 == 16;
  }

  /** 16 MHz at 115200 baud: usartdiv 868, BRR 0x8B (mantissa 8, fraction 11). */
  lemma Baud115200At16MHz()
    ensures UsartDiv(16000000, 115200, false) == 868
    ensures Brr(16000000, 115200, false) == 0x8B
  {
  }

  /** 16 MHz at 507614 baud: usartdiv 197 is encoded as 0x10 (1.0) where 1.97 needs 0x20 rounded. */
  lemma FractionLostAt507614()
    ensures UsartDiv(16000000, 507614, false) == 197
    ensures Brr(16000000, 507614, false) == 0x10
  {
    FractionNotCarried(197);
  }

  // ----- frames -----

  /** 9 data bits and no parity: a frame carries 9 bits of two buffer bytes. */
  predicate Wide(wordLength: byte, parity: byte)
  {
    wordLength == USART_WORD_LENGTH_9 && parity == USART_PARITY_CONTROL_DI
  }

  /** Buffer bytes one frame uses up: 2 for 9 bits without parity, 1 otherwise. */
  function FrameBytes(wordLength: byte, parity: byte): nat
  {
    if Wide(wordLength, parity) then 2 else 1
  }

  /** The DR value of a transmission from buffer position `p`: `*(uint16_t *)p & 0x1FF` for 9 bits, `*p` for 8. */
  function TxFrame(buf: seq<byte>, p: nat, wordLength: byte): (v: nat)
    ensures v < 512
  {
    if wordLength == USART_WORD_LENGTH_9 then (ByteAt(buf, p) + 256 * ByteAt(buf, p + 1)) % 512
    else ByteAt(buf, p)
  }

  /** The 9-bit frame holds the first byte in its low eight bits and bit 0 of the second in bit 8. */
  lemma TxFrameNineBits(buf: seq<byte>, p: nat)
    ensures TxFrame(buf, p, USART_WORD_LENGTH_9) % 256 == ByteAt(buf, p)
    ensures TxFrame(buf, p, USART_WORD_LENGTH_9) / 256 == ByteAt(buf, p + 1) % 2
  {
    var b0: int, b1: int := ByteAt(buf, p), ByteAt(buf, p + 1);
    assert b0 + 256 * b1 == (b0 + 256 * (b1 % 2)) + 512 * (b1 / 2);
    assert (b0 + 256 * b1) % 512 == b0 + 256 * (b1 % 2);
  }

  /** Each frame starts where the previous one's bytes end: frame k + 1 is FrameBytes after frame k. */
  lemma FrameAdvance(k: nat, wordLength: byte, parity: byte)
    ensures Pos(k + 1, wordLength, parity) == Pos(k, wordLength, parity) + FrameBytes(wordLength, parity)
    ensures Pos(k, wordLength, parity) == (if Wide(wordLength, parity) then 2 * k else k)
  {
  }

  /**
   * Outside 9-bit frames with parity, a frame reads only the bytes it uses
   * up: two buffers that agree on them send the same DR value.
   */
  lemma FrameReadsOwnBytes(buf: seq<byte>, other: seq<byte>, p: nat, wordLength: byte, parity: byte)
    requires wordLength != USART_WORD_LENGTH_9 || parity == USART_PARITY_CONTROL_DI
    requires forall i :: p <= i < p + FrameBytes(wordLength, parity) ==> ByteAt(buf, i) == ByteAt(other, i)
    ensures TxFrame(buf, p, wordLength) == TxFrame(other, p, wordLength)
  {
    if wordLength == USART_WORD_LENGTH_9 {
      assert ByteAt(buf, p + 1) == ByteAt(other, p + 1);
    }
  }

  /**
   * With 9 bits and parity a frame uses up one byte, yet bit 8 of its DR
   * value is bit 0 of the byte after it, the first byte of the next frame
   * (the hardware puts the parity bit there).
   */
  lemma ParityFrameOverlaps(buf: seq<byte>, p: nat, parity: byte)
    requires parity != USART_PARITY_CONTROL_DI
    ensures FrameBytes(USART_WORD_LENGTH_9, parity) == 1
    ensures TxFrame(buf, p, USART_WORD_LENGTH_9) / 256 == ByteAt(buf, p + FrameBytes(USART_WORD_LENGTH_9, parity)) % 2
  {
    TxFrameNineBits(buf, p);
  }

  /**
   * The bytes a received DR value stores: two (`*(uint16_t *)p = DR & 0x1FF`,
   * low byte first) for 9 bits without parity; `DR & 0xFF` for 9 bits with
   * parity and 8 bits without; `DR & 0x7F` for 8 bits with parity.
   */
  function RxStore(dr: uint16, wordLength: byte, parity: byte): (s: seq<byte>)
    ensures |s| == FrameBytes(wordLength, parity)
  {
    if Wide(wordLength, parity) then [(dr % 512) % 256, (dr % 512) / 256]
    else if wordLength == USART_WORD_LENGTH_9 || parity == USART_PARITY_CONTROL_DI then [dr % 256]
    else [dr % 128]
  }

  /**
   * A 9-bit frame sent from bytes `b0, b1` and received without parity is
   * stored as `b0` and bit 0 of `b1`; an 8-bit frame without parity is
   * stored unchanged; with parity the 8-bit frame loses its top bit.
   */
  lemma FrameRoundTrip(buf: seq<byte>, p: nat)
    ensures RxStore(TxFrame(buf, p, USART_WORD_LENGTH_9), USART_WORD_LENGTH_9, USART_PARITY_CONTROL_DI)
      == [ByteAt(buf, p), ByteAt(buf, p + 1) % 2]
    ensures RxStore(TxFrame(buf, p, USART_WORD_LENGTH_8), USART_WORD_LENGTH_8, USART_PARITY_CONTROL_DI) == [ByteAt(buf, p)]
    ensures RxStore(TxFrame(buf, p, USART_WORD_LENGTH_8), USART_WORD_LENGTH_8, USART_PARITY_CONTROL_EN_EVEN) == [ByteAt(buf, p) % 128]
  {
    TxFrameNineBits(buf, p);
  }

  // ----- traces -----

  /**
   * What the driver does on the line: a wait on a status flag (assumed to
   * end), a DR write or read, a dummy DR read, an application callback.
   */
  datatype Event = AwaitTxe | AwaitRxne | AwaitTcClear | WriteDR(v: nat) | ReadDR(d: uint16) | Callback(code: nat)

  /** Buffer position of frame `k`. */
  function Pos(k: nat, wordLength: byte, parity: byte): nat
  {
    if Wide(wordLength, parity) then k + k else k
  }

  /** The first `n` iterations of the blocking send loop. */
  function SendLoop(buf: seq<byte>, n: nat, wordLength: byte, parity: byte): (t: seq<Event>)
    ensures |t| == n + n
  {
    if n == 0 then []
    else SendLoop(buf, n - 1, wordLength, parity) + [AwaitTxe, WriteDR(TxFrame(buf, Pos(n - 1, wordLength, parity), wordLength))]
  }

  /** The DR values written, in order. */
  function Written(t: seq<Event>): seq<nat>
  {
    if t == [] then [] else (if t[0].WriteDR? then [t[0].v] else []) + Written(t[1..])
  }

  lemma {:induction false} WrittenConcat(a: seq<Event>, b: seq<Event>)
    ensures Written(a + b) == Written(a) + Written(b)
    decreases |a|
  {
    if a == [] {
      assert a + b == b;
    } else {
      assert (a + b)[1..] == a[1..] + b;
      WrittenConcat(a[1..], b);
    }
  }

  /** The DR value of one send-loop iteration. */
  lemma WrittenPair(v: nat)
    ensures Written([AwaitTxe, WriteDR(v)]) == [v]
  {
    var pair := [AwaitTxe, WriteDR(v)];
    assert pair[1..] == [WriteDR(v)];
    WrittenOne(v);
    assert Written(pair) == [] + Written(pair[1..]);
  }

  /** One DR write written alone. */
  lemma WrittenOne(v: nat)
    ensures Written([WriteDR(v)]) == [v]
  {
    assert [WriteDR(v)][1..] == [];
  }

  /** An 8-bit blocking send of `n` frames puts the first `n` buffer bytes on DR, in order. */
  lemma {:induction false} SendLoopEightBits(buf: seq<byte>, n: nat, parity: byte)
    requires n <= |buf|
    ensures Written(SendLoop(buf, n, USART_WORD_LENGTH_8, parity)) == buf[..n]
  {
    if n > 0 {
      var prev := SendLoop(buf, n - 1, USART_WORD_LENGTH_8, parity);
      var pair := [AwaitTxe, WriteDR(buf[n - 1])];
      SendLoopEightBits(buf, n - 1, parity);
      WrittenConcat(prev, pair);
      WrittenPair(buf[n - 1]);
      assert buf[..n] == buf[..n - 1] + [buf[n - 1]];
    }
  }

  /** The first `n` iterations of the blocking receive loop, for the DR values `incoming`. */
  function ReceiveLoop(incoming: seq<uint16>): (t: seq<Event>)
  {
    if incoming == [] then []
    else ReceiveLoop(incoming[..|incoming| - 1]) + [AwaitRxne, ReadDR(incoming[|incoming| - 1])]
  }

  /** The bytes the blocking receive stores for the DR values `incoming`. */
  function Stored(incoming: seq<uint16>, wordLength: byte, parity: byte): seq<byte>
  {
    if incoming == [] then []
    else Stored(incoming[..|incoming| - 1], wordLength, parity) + RxStore(incoming[|incoming| - 1], wordLength, parity)
  }

  /** With 8 data bits and no parity, DR values below 256 are stored unchanged. */
  lemma {:induction false} StoredEightBits(incoming: seq<uint16>)
    requires forall i :: 0 <= i < |incoming| ==> incoming[i] < 256
    ensures |Stored(incoming, USART_WORD_LENGTH_8, USART_PARITY_CONTROL_DI)| == |incoming|
    ensures forall i :: 0 <= i < |incoming| ==> Stored(incoming, USART_WORD_LENGTH_8, USART_PARITY_CONTROL_DI)[i] == incoming[i]
    decreases |incoming|
  {
    if incoming != [] {
      var init := incoming[..|incoming| - 1];
      var last := incoming[|incoming| - 1];
      StoredEightBits(init);
      EightBitsStore(last);
      var s0 := Stored(init, USART_WORD_LENGTH_8, USART_PARITY_CONTROL_DI);
      assert Stored(incoming, USART_WORD_LENGTH_8, USART_PARITY_CONTROL_DI) == s0 + [last as byte];
    }
  }

  lemma EightBitsStore(v: uint16)
    requires v < 256
    ensures RxStore(v, USART_WORD_LENGTH_8, USART_PARITY_CONTROL_DI) == [v as byte]
  {
  }

  // ----- the interrupt-driven transfer state -----

  /** The transmit half of the handle: buffer and position (`pTxBuffer`), `TxLen`, `TxState`. */
  datatype TxState = TxState(buf: seq<byte>, pos: nat, len: uint32, state: byte)

  /** The receive half of the handle: bytes stored through `pRxBuffer`, `RxLen`, `RxState`. */
  datatype RxState = RxState(stored: seq<byte>, len: uint32, state: byte)

  /** `len - n` in 32 bits, as `TxLen -= n` and `RxLen -= n` compute it. */
  function Sub32(len: uint32, n: nat): uint32
  {
    (len - n) % U32
  }

  /**
   * The TC part of `USART_IRQHandling` with TC and TCIE both set: a busy
   * transmission with nothing left closes (READY, no buffer, length 0).
   * TCIE itself is left enabled.
   */
  function TcClose(tx: TxState): TxState
  {
    if tx.state == USART_BUSY_IN_TX && tx.len == 0 then TxState([], 0, 0, USART_READY) else tx
  }

  /** Whether the TC part reports `TX_CMPLT` (and clears TC in SR). */
  predicate TcCloses(tx: TxState)
  {
    tx.state == USART_BUSY_IN_TX && tx.len == 0
  }

  /** The TXE part with TXE and TXEIE both set: one frame from the buffer when bytes are left. */
  function TxeSend(tx: TxState, wordLength: byte, parity: byte): TxState
  {
    if tx.state == USART_BUSY_IN_TX && tx.len > 0 then
      tx.(pos := tx.pos + FrameBytes(wordLength, parity), len := Sub32(tx.len, FrameBytes(wordLength, parity)))
    else tx
  }

  /** The DR write of the TXE part, if any. */
  function TxeWrites(tx: TxState, wordLength: byte): seq<Event>
  {
    if tx.state == USART_BUSY_IN_TX && tx.len > 0 then [WriteDR(TxFrame(tx.buf, tx.pos, wordLength))] else []
  }

  /** Whether the TXE part disables TXEIE: a busy transmission whose length has reached 0. */
  predicate TxeStops(tx: TxState, wordLength: byte, parity: byte)
  {
    tx.state == USART_BUSY_IN_TX && TxeSend(tx, wordLength, parity).len == 0
  }

  /** Each TXE interrupt on a busy transmission with bytes left uses up one frame's bytes of buffer and length. */
  lemma TxeConsumes(tx: TxState, wordLength: byte, parity: byte)
    requires tx.state == USART_BUSY_IN_TX && tx.len >= FrameBytes(wordLength, parity)
    ensures TxeSend(tx, wordLength, parity).pos == tx.pos + FrameBytes(wordLength, parity)
    ensures TxeSend(tx, wordLength, parity).len == tx.len - FrameBytes(wordLength, parity)
    ensures TxeStops(tx, wordLength, parity) <==> tx.len == FrameBytes(wordLength, parity)
  {
  }

  /**
   * 9 bits without parity and one byte left: `TxLen -= 2` wraps to
   * 0xFFFFFFFF, TXEIE stays enabled and the transmission never completes.
   */
  lemma TxeOddLengthWraps(tx: TxState)
    requires tx.state == USART_BUSY_IN_TX && tx.len == 1
    ensures TxeSend(tx, USART_WORD_LENGTH_9, USART_PARITY_CONTROL_DI).len == 0xFFFF_FFFF
    ensures !TxeStops(tx, USART_WORD_LENGTH_9, USART_PARITY_CONTROL_DI)
  {
  }

  /** `n` TXE interrupts in a row (TC not raised in between). */
  function TxeRun(tx: TxState, n: nat, wordLength: byte, parity: byte): TxState
    decreases n
  {
    if n == 0 then tx else TxeRun(TxeSend(tx, wordLength, parity), n - 1, wordLength, parity)
  }

  /** The DR writes of `n` TXE interrupts in a row. */
  function TxeRunWrites(tx: TxState, n: nat, wordLength: byte, parity: byte): seq<Event>
    decreases n
  {
    if n == 0 then []
    else TxeWrites(tx, wordLength) + TxeRunWrites(TxeSend(tx, wordLength, parity), n - 1, wordLength, parity)
  }

  /**
   * An interrupt-driven transmission of `k` frames' worth of bytes ends
   * after exactly `k` TXE interrupts with `TxLen` 0, the position `k`
   * frames on, and the same DR writes as the blocking send of `k` frames.
   */
  lemma {:induction false} TxeRunCompletes(buf: seq<byte>, k: nat, wordLength: byte, parity: byte)
    requires k * FrameBytes(wordLength, parity) < U32
    ensures var tx := TxeRun(TxState(buf, 0, k * FrameBytes(wordLength, parity), USART_BUSY_IN_TX), k, wordLength, parity);
      tx.len == 0 && tx.pos == Pos(k, wordLength, parity) && tx.state == USART_BUSY_IN_TX
    ensures Written(TxeRunWrites(TxState(buf, 0, k * FrameBytes(wordLength, parity), USART_BUSY_IN_TX), k, wordLength, parity))
      == Written(SendLoop(buf, k, wordLength, parity))
  {
    TxeRunFrom(buf, 0, k, wordLength, parity);
    SendLoopFrom(buf, k, wordLength, parity);
  }

  /** `TxeRun` from any position with exactly `k` frames' worth left. */
  lemma {:induction false} TxeRunFrom(buf: seq<byte>, p: nat, k: nat, wordLength: byte, parity: byte)
    requires k * FrameBytes(wordLength, parity) < U32
    ensures var tx := TxeRun(TxState(buf, p, k * FrameBytes(wordLength, parity), USART_BUSY_IN_TX), k, wordLength, parity);
      tx.len == 0 && tx.pos == p + Pos(k, wordLength, parity) && tx.state == USART_BUSY_IN_TX
    ensures Written(TxeRunWrites(TxState(buf, p, k * FrameBytes(wordLength, parity), USART_BUSY_IN_TX), k, wordLength, parity))
      == Frames(buf, p, k, wordLength, parity)
    decreases k
  {
    var s := FrameBytes(wordLength, parity);
    var tx := TxState(buf, p, k * s, USART_BUSY_IN_TX);
    if k > 0 {
      var next := TxeSend(tx, wordLength, parity);
      assert k * s == (k - 1) * s + s;
      assert next == TxState(buf, p + s, (k - 1) * s, USART_BUSY_IN_TX);
      TxeRunFrom(buf, p + s, k - 1, wordLength, parity);
      var w := TxeWrites(tx, wordLength);
      assert w == [WriteDR(TxFrame(buf, p, wordLength))];
      WrittenConcat(w, TxeRunWrites(next, k - 1, wordLength, parity));
      WrittenOne(TxFrame(buf, p, wordLength));
    }
  }

  /** The DR values of `k` frames from buffer position `p`. */
  function Frames(buf: seq<byte>, p: nat, k: nat, wordLength: byte, parity: byte): seq<nat>
    decreases k
  {
    if k == 0 then [] else [TxFrame(buf, p, wordLength)] + Frames(buf, p + FrameBytes(wordLength, parity), k - 1, wordLength, parity)
  }

  /** The blocking send of `k` frames writes `Frames(buf, 0, k)`. */
  lemma {:induction false} SendLoopFrom(buf: seq<byte>, k: nat, wordLength: byte, parity: byte)
    ensures Written(SendLoop(buf, k, wordLength, parity)) == Frames(buf, 0, k, wordLength, parity)
  {
    if k > 0 {
      var prev := SendLoop(buf, k - 1, wordLength, parity);
      var v := TxFrame(buf, Pos(k - 1, wordLength, parity), wordLength);
      var pair := [AwaitTxe, WriteDR(v)];
      SendLoopFrom(buf, k - 1, wordLength, parity);
      WrittenConcat(prev, pair);
      WrittenPair(v);
      FramesSnoc(buf, 0, k - 1, wordLength, parity);
    }
  }

  /** One more frame at the end. */
  lemma {:induction false} FramesSnoc(buf: seq<byte>, p: nat, k: nat, wordLength: byte, parity: byte)
    ensures Frames(buf, p, k + 1, wordLength, parity)
      == Frames(buf, p, k, wordLength, parity) + [TxFrame(buf, p + Pos(k, wordLength, parity), wordLength)]
    decreases k
  {
    var s := FrameBytes(wordLength, parity);
    if k > 0 {
      var head := [TxFrame(buf, p, wordLength)];
      var last := [TxFrame(buf, p + Pos(k, wordLength, parity), wordLength)];
      var middle := Frames(buf, p + s, k - 1, wordLength, parity);
      FramesSnoc(buf, p + s, k - 1, wordLength, parity);
      FrameAdvance(k - 1, wordLength, parity);
      assert Frames(buf, p + s, k, wordLength, parity) == middle + last;
      FramesCons(buf, p, k, wordLength, parity);
      FramesCons(buf, p, k - 1, wordLength, parity);
      Seqs.Regroup2(head, middle, last);
    }
  }

  /** The first frame, then the rest from the next frame's position. */
  lemma FramesCons(buf: seq<byte>, p: nat, k: nat, wordLength: byte, parity: byte)
    ensures Frames(buf, p, k + 1, wordLength, parity)
      == [TxFrame(buf, p, wordLength)] + Frames(buf, p + FrameBytes(wordLength, parity), k, wordLength, parity)
  {
  }

  /** The RXNE part with RXNE and RXNEIE both set: one DR value stored when bytes are left. */
  function RxneStore(rx: RxState, dr: uint16, wordLength: byte, parity: byte): RxState
  {
    if rx.state == USART_BUSY_IN_RX && rx.len > 0 then
      rx.(stored := rx.stored + RxStore(dr, wordLength, parity), len := Sub32(rx.len, FrameBytes(wordLength, parity)))
    else rx
  }

  /** The events of the TC part once TC and TCIE are set. */
  function TcEvents(tx: TxState): seq<Event>
  {
    if TcCloses(tx) then [Callback(USART_EVENT_TX_CMPLT)] else []
  }

  /** The events of the RXNE part once RXNE and RXNEIE are set: the DR read, then the completion callback. */
  function RxneEvents(rx: RxState, dr: uint16, wordLength: byte, parity: byte): seq<Event>
  {
    (if rx.state == USART_BUSY_IN_RX && rx.len > 0 then [ReadDR(dr)] else [])
    + (if RxneCloses(rx, dr, wordLength, parity) then [Callback(USART_EVENT_RX_CMPLT)] else [])
  }

  /** After the store, a busy reception with length 0 closes: READY (RXNEIE off, `RX_CMPLT`). */
  predicate RxneCloses(rx: RxState, dr: uint16, wordLength: byte, parity: byte)
  {
    rx.state == USART_BUSY_IN_RX && RxneStore(rx, dr, wordLength, parity).len == 0
  }

  function RxneClose(rx: RxState, dr: uint16, wordLength: byte, parity: byte): RxState
  {
    var r := RxneStore(rx, dr, wordLength, parity);
    if RxneCloses(rx, dr, wordLength, parity) then r.(state := USART_READY) else r
  }

  /**
   * A reception of `k` frames' worth of bytes stores exactly the bytes of
   * its `k` DR values and then closes, and not before.
   */
  lemma {:induction false} RxneRunCompletes(stored: seq<byte>, incoming: seq<uint16>, wordLength: byte, parity: byte)
    requires |incoming| * FrameBytes(wordLength, parity) < U32
    ensures var rx := RxneRun(RxState(stored, |incoming| * FrameBytes(wordLength, parity), USART_BUSY_IN_RX), incoming, wordLength, parity);
      rx.state == (if incoming == [] then USART_BUSY_IN_RX else USART_READY) && rx.len == 0
      && rx.stored == stored + StoredFrom(incoming, wordLength, parity)
    decreases |incoming|
  {
    var s := FrameBytes(wordLength, parity);
    if incoming != [] {
      var k := |incoming|;
      var rx := RxState(stored, k * s, USART_BUSY_IN_RX);
      assert k * s == (k - 1) * s + s;
      var next := RxneClose(rx, incoming[0], wordLength, parity);
      var added := RxStore(incoming[0], wordLength, parity);
      if k == 1 {
        assert next == RxState(stored + added, 0, USART_READY);
        assert incoming[1..] == [];
        assert StoredFrom(incoming, wordLength, parity) == added + StoredFrom([], wordLength, parity);
      } else {
        assert next == RxState(stored + added, (k - 1) * s, USART_BUSY_IN_RX);
        RxneRunCompletes(stored + added, incoming[1..], wordLength, parity);
        Seqs.Regroup2(stored, added, StoredFrom(incoming[1..], wordLength, parity));
      }
    }
  }

  /** Successive RXNE interrupts for the DR values `incoming`. */
  function RxneRun(rx: RxState, incoming: seq<uint16>, wordLength: byte, parity: byte): RxState
    decreases |incoming|
  {
    if incoming == [] then rx else RxneRun(RxneClose(rx, incoming[0], wordLength, parity), incoming[1..], wordLength, parity)
  }

  /** The bytes stored for `incoming`, front to back. */
  function StoredFrom(incoming: seq<uint16>, wordLength: byte, parity: byte): seq<byte>
  {
    if incoming == [] then [] else RxStore(incoming[0], wordLength, parity) + StoredFrom(incoming[1..], wordLength, parity)
  }

  // ----- the other interrupt sources, with the masks as the handler tests them -----

  /** The outcome of each test of the CTS, IDLE, overrun and error parts. */
  datatype OtherTests = OtherTests(cts: bool, idle: bool, overrun: bool, errors: bool, framing: bool, overrunError: bool)

  /**
   * The tests as written: IDLE is gated by CTSE in CR3; the overrun test
   * masks SR with 3 (PE, FE) and CR1 with 5 (SBK, RE); the noise test reads FE.
   */
  function Tests(sr: bv32, cr1: bv32, cr3: bv32): OtherTests
  {
    OtherTests(sr & SR_CTS != 0 && cr3 & CR3_CTSE != 0,
               sr & SR_IDLE != 0 && cr3 & CR3_CTSE != 0,
               sr & SR_ORE_POSITION_MASK != 0 && cr1 & CR1_RXNEIE_POSITION_MASK != 0,
               cr3 & CR3_EIE != 0, sr & SR_FE != 0, sr & SR_ORE != 0)
  }

  /** The callbacks of those parts, in order. */
  function Callbacks(t: OtherTests): seq<Event>
  {
    CtsIdleCallbacks(t) + OverrunErrorCallbacks(t)
  }

  function CtsIdleCallbacks(t: OtherTests): seq<Event>
  {
    (if t.cts then [Callback(USART_EVENT_CTS)] else []) + (if t.idle then [Callback(USART_EVENT_IDLE)] else [])
  }

  function OverrunErrorCallbacks(t: OtherTests): seq<Event>
  {
    (if t.overrun then [Callback(USART_EVENT_ORE)] else []) + ErrorCallbacks(t)
  }

  function ErrorCallbacks(t: OtherTests): seq<Event>
  {
    if t.errors then
      (if t.framing then [Callback(USART_ERREVENT_FE), Callback(USART_ERREVENT_NE)] else [])
      + (if t.overrunError then [Callback(USART_ERREVENT_ORE)] else [])
    else []
  }

  /** With error interrupts enabled, a noise error is reported exactly when a framing error is, that is when FE is set. */
  lemma NoiseFollowsFraming(sr: bv32, cr1: bv32, cr3: bv32)
    requires cr3 & CR3_EIE != 0
    ensures Callback(USART_ERREVENT_NE) in Callbacks(Tests(sr, cr1, cr3)) <==> sr & SR_FE != 0
    ensures Callback(USART_ERREVENT_FE) in Callbacks(Tests(sr, cr1, cr3)) <==> sr & SR_FE != 0
  {
    var t := Tests(sr, cr1, cr3);
    var front := CtsIdleCallbacks(t) + (if t.overrun then [Callback(USART_EVENT_ORE)] else []);
    assert Callbacks(t) == front + ErrorCallbacks(t);
    assert Callback(USART_ERREVENT_NE) !in front && Callback(USART_ERREVENT_FE) !in front;
    if t.framing {
      assert ErrorCallbacks(t)[1] == Callback(USART_ERREVENT_NE);
      assert ErrorCallbacks(t)[0] == Callback(USART_ERREVENT_FE);
    } else {
      assert Callback(USART_ERREVENT_NE) !in ErrorCallbacks(t);
      assert Callback(USART_ERREVENT_FE) !in ErrorCallbacks(t);
    }
  }

  /** The overrun event is reported for a parity error with the receiver enabled, ORE itself clear. */
  lemma OverrunOnParityError()
    ensures Tests(1, CR1_RE, 0).overrun && !Tests(1, CR1_RE, 0).overrunError
    ensures Callbacks(Tests(1, CR1_RE, 0)) == [Callback(USART_EVENT_ORE)]
  {
  }

  /** A real overrun (ORE, bit 3) with RXNEIE enabled and PE, FE clear is not reported as `USART_EVENT_ORE`. */
  lemma OverrunMissed()
    ensures !Tests(SR_ORE, CR1_RXNEIE, 0).overrun
    ensures Callbacks(Tests(SR_ORE, CR1_RXNEIE, 0)) == []
  {
  }

  // ----- registers and handle -----

  class UsartRegs {
    var SR: bv32
    var DR: uint16
    var BRR: nat
    var CR1: bv32
    var CR2: bv32
    var CR3: bv32

    constructor ()
      ensures SR == 0 && DR == 0 && BRR == 0 && CR1 == 0 && CR2 == 0 && CR3 == 0
    {
      SR, DR, BRR, CR1, CR2, CR3 := 0, 0, 0, 0, 0, 0;
    }
  }

  class UsartHandle {
    const port: Port
    const regs: UsartRegs

    // USART_Config_t
    const mode: byte
    const baud: uint32
    const stopBits: byte
    const wordLength: byte
    const parity: byte
    const hwFlow: byte

    var txBuf: seq<byte>
    var txPos: nat
    var txLen: uint32
    var txState: byte
    var rxStored: seq<byte>
    var rxLen: uint32
    var rxState: byte

    /** Everything the driver did on the line, oldest first. */
    var trace: seq<Event>

    function Tx(): TxState
      reads this`txBuf, this`txPos, this`txLen, this`txState
    {
      TxState(txBuf, txPos, txLen, txState)
    }

    function Rx(): RxState
      reads this`rxStored, this`rxLen, this`rxState
    {
      RxState(rxStored, rxLen, rxState)
    }

    constructor (port: Port, regs: UsartRegs, mode: byte, baud: uint32, stopBits: byte, wordLength: byte, parity: byte, hwFlow: byte)
      ensures this.port == port && this.regs == regs && this.mode == mode && this.baud == baud
      ensures this.stopBits == stopBits && this.wordLength == wordLength && this.parity == parity && this.hwFlow == hwFlow
      ensures Tx() == TxState([], 0, 0, USART_READY) && Rx() == RxState([], 0, USART_READY) && trace == []
    {
      this.port, this.regs := port, regs;
      this.mode, this.baud, this.stopBits := mode, baud, stopBits;
      this.wordLength, this.parity, this.hwFlow := wordLength, parity, hwFlow;
      txBuf, txPos, txLen, txState := [], 0, 0, USART_READY;
      rxStored, rxLen, rxState := [], 0, USART_READY;
      trace := [];
    }

    /** `USART_Init`: CR1, CR2 and CR3 assigned from the configuration, then the baud rate. */
    method Init(pclk1: uint32, pclk2: uint32)
      requires BaudDivisor(baud, Cr1Config(mode, wordLength, parity) & CR1_OVER8 != 0) != 0
      modifies regs`CR1, regs`CR2, regs`CR3, regs`BRR
      ensures regs.CR1 == Cr1Config(mode, wordLength, parity)
      ensures regs.CR2 == Cr2Config(stopBits) && regs.CR3 == Cr3Config(hwFlow)
      ensures regs.BRR == Brr(PortClock(port, pclk1, pclk2), baud, regs.CR1 & CR1_OVER8 != 0)
    {
      regs.CR1 := Cr1Config(mode, wordLength, parity);
      regs.CR2 := Cr2Config(stopBits);
      regs.CR3 := Cr3Config(hwFlow);
      SetBaudRate(pclk1, pclk2, baud);
    }

    /** `USART_SetBaudRate`: usartdiv from the port's APB clock and OVER8, then mantissa and fraction. */
    method SetBaudRate(pclk1: uint32, pclk2: uint32, baudRate: uint32)
      requires BaudDivisor(baudRate, regs.CR1 & CR1_OVER8 != 0) != 0
      modifies regs`BRR
      ensures regs.BRR == Brr(PortClock(port, pclk1, pclk2), baudRate, regs.CR1 & CR1_OVER8 != 0)
    {
      var pclkx: uint32;
      if port == USART1 || port == USART6 {
        pclkx := pclk2;
      } else {
        pclkx := pclk1;
      }
      var over8 := regs.CR1 & CR1_OVER8 != 0;
      var divisor: int;
      if over8 {
        divisor := (2 * baudRate) % U32;
      } else {
        divisor := (4 * baudRate) % U32;
      }
      assert divisor == BaudDivisor(baudRate, over8);
      var usartdiv := ((25 * pclkx) % U32) / divisor;
      var mPart := usartdiv / 100;
      var hundredths := usartdiv - mPart * 100;
      HundredthsPart(usartdiv);
      var fPart: int;
      if over8 {
        fPart := ((hundredths * 8 + 50) / 100) % 8;
      } else {
        fPart := ((hundredths * 16 + 50) / 100) % 16;
      }
      assert fPart == Fraction(usartdiv % 100, over8);
      regs.BRR := mPart * 16 + fPart;
    }

    /** `USART_PeripheralControl`: sets or clears UE. */
    method PeripheralControl(enable: byte)
      modifies regs`CR1
      ensures enable == 1 ==> regs.CR1 == SetBits(old(regs.CR1), CR1_UE)
      ensures enable != 1 ==> regs.CR1 == ClearBits(old(regs.CR1), CR1_UE)
    {
      if enable == 1 {
        regs.CR1 := SetBits(regs.CR1, CR1_UE);
      } else {
        regs.CR1 := ClearBits(regs.CR1, CR1_UE);
      }
    }

    /** `USART_GetFlagStatus`: whether any bit of the flag mask is set in SR. */
    method GetFlagStatus(flag: bv32) returns (set_: bool)
      ensures set_ <==> regs.SR & flag != 0
    {
      set_ := regs.SR & flag != 0;
    }

    /** `USART_ClearFlag`: `SR &= ~flag`. */
    method ClearFlag(flag: bv32)
      modifies regs`SR
      ensures regs.SR == ClearBits(old(regs.SR), flag)
    {
      regs.SR := ClearBits(regs.SR, flag);
    }

    /**
     * `USART_SendData` (blocking): `len` frames, each after TXE, from a
     * pointer that moves 2 bytes per frame for 9 bits without parity and 1
     * otherwise; then the wait on TC, which loops while TC is set.
     */
    method SendData(buf: seq<byte>, len: uint32)
      modifies this`trace, regs`DR
      ensures trace == old(trace) + SendLoop(buf, len, wordLength, parity) + [AwaitTcClear]
    {
      var p := 0;
      var i := 0;
      while i < len
        invariant i <= len && p == Pos(i, wordLength, parity)
        invariant trace == old(trace) + SendLoop(buf, i, wordLength, parity)
      {
        var v := TxFrame(buf, p, wordLength);
        regs.DR := v;
        Seqs.Snoc2(old(trace) + SendLoop(buf, i, wordLength, parity), AwaitTxe, WriteDR(v));
        trace := trace + [AwaitTxe, WriteDR(v)];
        Seqs.Regroup2(old(trace), SendLoop(buf, i, wordLength, parity), [AwaitTxe, WriteDR(v)]);
        p := p + FrameBytes(wordLength, parity);
        i := i + 1;
      }
      trace := trace + [AwaitTcClear];
    }

    /**
     * `USART_ReceiveData` (blocking): one DR value per frame, after RXNE,
     * stored as `RxStore` says; `incoming` are the DR values in order.
     */
    method ReceiveData(len: uint32, incoming: seq<uint16>) returns (stored: seq<byte>)
      requires |incoming| == len
      modifies this`trace
      ensures trace == old(trace) + ReceiveLoop(incoming)
      ensures stored == Stored(incoming, wordLength, parity)
    {
      stored := [];
      var i := 0;
      while i < len
        invariant i <= len
        invariant trace == old(trace) + ReceiveLoop(incoming[..i])
        invariant stored == Stored(incoming[..i], wordLength, parity)
      {
        var v := incoming[i];
        assert incoming[..i + 1][..i] == incoming[..i];
        trace := trace + [AwaitRxne, ReadDR(v)];
        Seqs.Regroup2(old(trace), ReceiveLoop(incoming[..i]), [AwaitRxne, ReadDR(v)]);
        stored := stored + RxStore(v, wordLength, parity);
        i := i + 1;
      }
      assert incoming[..i] == incoming;
    }

    /**
     * `USART_SendDataIT`: refused (the busy state returned, nothing changed)
     * while a transmission is in progress; otherwise the transfer is armed,
     * TXEIE and TCIE are enabled and the previous state is returned.
     */
    method SendDataIT(buf: seq<byte>, len: uint32) returns (state: byte)
      modifies this`txBuf, this`txPos, this`txLen, this`txState, regs`CR1
      ensures state == old(txState)
      ensures old(txState) == USART_BUSY_IN_TX ==> Tx() == old(Tx()) && regs.CR1 == old(regs.CR1)
      ensures old(txState) != USART_BUSY_IN_TX ==>
        Tx() == TxState(buf, 0, len, USART_BUSY_IN_TX) && regs.CR1 == SetBits(SetBits(old(regs.CR1), CR1_TXEIE), CR1_TCIE)
    {
      state := txState;
      if state != USART_BUSY_IN_TX {
        txLen := len;
        txBuf, txPos := buf, 0;
        txState := USART_BUSY_IN_TX;
        regs.CR1 := SetBits(regs.CR1, CR1_TXEIE);
        regs.CR1 := SetBits(regs.CR1, CR1_TCIE);
      }
    }

    /**
     * `USART_ReceiveDataIT`: refused while a reception is in progress;
     * otherwise armed after a dummy DR read, with RXNEIE enabled.
     */
    method ReceiveDataIT(len: uint32, dr: uint16) returns (state: byte)
      modifies this`rxStored, this`rxLen, this`rxState, this`trace, regs`CR1
      ensures state == old(rxState)
      ensures old(rxState) == USART_BUSY_IN_RX ==> Rx() == old(Rx()) && regs.CR1 == old(regs.CR1) && trace == old(trace)
      ensures old(rxState) != USART_BUSY_IN_RX ==>
        Rx() == RxState([], len, USART_BUSY_IN_RX) && regs.CR1 == SetBits(old(regs.CR1), CR1_RXNEIE)
        && trace == old(trace) + [ReadDR(dr)]
    {
      state := rxState;
      if state != USART_BUSY_IN_RX {
        rxLen := len;
        rxStored := [];
        rxState := USART_BUSY_IN_RX;
        trace := trace + [ReadDR(dr)];
        regs.CR1 := SetBits(regs.CR1, CR1_RXNEIE);
      }
    }

    /** The TC part of `USART_IRQHandling`. */
    method HandleTc()
      modifies this`txBuf, this`txPos, this`txLen, this`txState, this`trace, regs`SR
      ensures var raised := TcRaised(old(regs.SR), regs.CR1);
        Tx() == (if raised then TcClose(old(Tx())) else old(Tx()))
        && trace == old(trace) + (if raised then TcEvents(old(Tx())) else [])
        && regs.SR == (if raised && TcCloses(old(Tx())) then ClearBits(old(regs.SR), SR_TC) else old(regs.SR))
    {
      var temp1 := regs.SR & SR_TC != 0;
      var temp2 := regs.CR1 & CR1_TCIE != 0;
      if temp1 && temp2 && txState == USART_BUSY_IN_TX && txLen == 0 {
        regs.SR := ClearBits(regs.SR, SR_TC);
        txState := USART_READY;
        txBuf, txPos := [], 0;
        txLen := 0;
        trace := trace + [Callback(USART_EVENT_TX_CMPLT)];
      }
    }

    /** The TXE part of `USART_IRQHandling`. */
    method HandleTxe()
      modifies this`txPos, this`txLen, this`trace, regs`DR, regs`CR1
      ensures var raised := TxeRaised(regs.SR, old(regs.CR1));
        Tx() == (if raised then TxeSend(old(Tx()), wordLength, parity) else old(Tx()))
        && trace == old(trace) + (if raised then TxeWrites(old(Tx()), wordLength) else [])
        && regs.CR1 == (if raised && TxeStops(old(Tx()), wordLength, parity) then ClearBits(old(regs.CR1), CR1_TXEIE) else old(regs.CR1))
    {
      var temp1 := regs.SR & SR_TXE != 0;
      var temp2 := regs.CR1 & CR1_TXEIE != 0;
      if temp1 && temp2 && txState == USART_BUSY_IN_TX {
        if txLen > 0 {
          var v := TxFrame(txBuf, txPos, wordLength);
          regs.DR := v;
          trace := trace + [WriteDR(v)];
          txPos := txPos + FrameBytes(wordLength, parity);
          txLen := Sub32(txLen, FrameBytes(wordLength, parity));
        }
        if txLen == 0 {
          regs.CR1 := ClearBits(regs.CR1, CR1_TXEIE);
        }
      }
    }

    /** The RXNE part of `USART_IRQHandling`; `dr` is the value read from DR. */
    method HandleRxne(dr: uint16)
      modifies this`rxStored, this`rxLen, this`rxState, this`trace, regs`CR1
      ensures var raised := RxneRaised(regs.SR, old(regs.CR1));
        Rx() == (if raised then RxneClose(old(Rx()), dr, wordLength, parity) else old(Rx()))
        && trace == old(trace) + (if raised then RxneEvents(old(Rx()), dr, wordLength, parity) else [])
        && regs.CR1 == (if raised && RxneCloses(old(Rx()), dr, wordLength, parity) then ClearBits(old(regs.CR1), CR1_RXNEIE) else old(regs.CR1))
    {
      var temp1 := regs.SR & SR_RXNE != 0;
      var temp2 := regs.CR1 & CR1_RXNEIE != 0;
      if temp1 && temp2 && rxState == USART_BUSY_IN_RX {
        if rxLen > 0 {
          trace := trace + [ReadDR(dr)];
          rxStored := rxStored + RxStore(dr, wordLength, parity);
          rxLen := Sub32(rxLen, FrameBytes(wordLength, parity));
        }
        if rxLen == 0 {
          regs.CR1 := ClearBits(regs.CR1, CR1_RXNEIE);
          rxState := USART_READY;
          trace := trace + [Callback(USART_EVENT_RX_CMPLT)];
        }
      }
    }

    /** The CTS and IDLE parts: each flag is cleared in SR when it is reported. */
    method HandleCtsIdle()
      modifies this`trace, regs`SR
      ensures trace == old(trace) + CtsIdleCallbacks(Tests(old(regs.SR), regs.CR1, regs.CR3))
      ensures regs.SR == OthersSr(old(regs.SR), regs.CR3)
    {
      ghost var t := Tests(regs.SR, regs.CR1, regs.CR3);
      ghost var sr0 := regs.SR;
      var cts := regs.SR & SR_CTS != 0 && regs.CR3 & CR3_CTSE != 0;
      assert cts == t.cts;
      if cts {
        regs.SR := ClearBits(regs.SR, SR_CTS);
        trace := trace + [Callback(USART_EVENT_CTS)];
      }
      IdleUntouched(sr0, cts);
      var idle := regs.SR & SR_IDLE != 0 && regs.CR3 & CR3_CTSE != 0;
      assert idle == t.idle;
      if idle {
        regs.SR := ClearBits(regs.SR, SR_IDLE);
        trace := trace + [Callback(USART_EVENT_IDLE)];
      }
    }

    /** The overrun and error parts, which only report. */
    method HandleOverrunErrors()
      modifies this`trace
      ensures trace == old(trace) + OverrunErrorCallbacks(Tests(regs.SR, regs.CR1, regs.CR3))
    {
      ghost var t := Tests(regs.SR, regs.CR1, regs.CR3);
      var calls: seq<Event> := [];
      var ore := regs.SR & SR_ORE_POSITION_MASK != 0 && regs.CR1 & CR1_RXNEIE_POSITION_MASK != 0;
      if ore {
        calls := calls + [Callback(USART_EVENT_ORE)];
      }
      if regs.CR3 & CR3_EIE != 0 {
        var temp1 := regs.SR;
        if temp1 & SR_FE != 0 {
          calls := calls + [Callback(USART_ERREVENT_FE)];
        }
        if temp1 & SR_FE != 0 {
          calls := calls + [Callback(USART_ERREVENT_NE)];
        }
        if temp1 & SR_ORE != 0 {
          calls := calls + [Callback(USART_ERREVENT_ORE)];
        }
      }
      trace := trace + calls;
    }

    /** The CTS, IDLE, overrun and error parts, in that order. */
    method HandleOthers()
      modifies this`trace, regs`SR
      ensures trace == old(trace) + Callbacks(Tests(old(regs.SR), regs.CR1, regs.CR3))
      ensures regs.SR == OthersSr(old(regs.SR), regs.CR3)
    {
      ghost var t := Tests(regs.SR, regs.CR1, regs.CR3);
      ghost var sr0, tr0 := regs.SR, trace;
      HandleCtsIdle();
      ghost var tr1 := trace;
      TestsAfterCtsIdle(sr0, regs.CR1, regs.CR3);
      HandleOverrunErrors();
      Seqs.Regroup2(tr0, CtsIdleCallbacks(t), OverrunErrorCallbacks(t));
    }

    /** The TC and TXE parts, in that order; the TXE part tests SR as the TC part left it. */
    method HandleTxSide()
      modifies this`txBuf, this`txPos, this`txLen, this`txState, this`trace, regs`SR, regs`CR1, regs`DR
      ensures var tc, txe := TcRaised(old(regs.SR), old(regs.CR1)), TxeRaised(old(regs.SR), old(regs.CR1));
        Tx() == TxSide(old(Tx()), tc, txe, wordLength, parity)
        && trace == old(trace) + TxSideEvents(old(Tx()), tc, txe, wordLength)
      ensures regs.SR == old(regs.SR) || regs.SR == ClearBits(old(regs.SR), SR_TC)
      ensures regs.CR1 == old(regs.CR1) || regs.CR1 == ClearBits(old(regs.CR1), CR1_TXEIE)
    {
      ghost var sr0, cr10 := regs.SR, regs.CR1;
      ghost var tx0, tr0 := Tx(), trace;
      HandleTc();
      ghost var tx1, tr1 := Tx(), trace;
      TcKeepsFlags(sr0, regs.SR);
      HandleTxe();
      assert trace == tr1 + (if TxeRaised(sr0, cr10) then TxeWrites(tx1, wordLength) else []);
      Seqs.Regroup2(tr0, if TcRaised(sr0, cr10) then TcEvents(tx0) else [], if TxeRaised(sr0, cr10) then TxeWrites(tx1, wordLength) else []);
    }

    /**
     * `USART_IRQHandling`: the TC, TXE, RXNE, CTS, IDLE, overrun and error
     * parts in that order, each testing the registers as the previous ones
     * left them. `dr` is the value the RXNE part reads from DR.
     */
    method IrqHandling(dr: uint16)
      modifies this`txBuf, this`txPos, this`txLen, this`txState, this`rxStored, this`rxLen, this`rxState, this`trace
      modifies regs`SR, regs`CR1, regs`DR
      ensures var sr, cr1 := old(regs.SR), old(regs.CR1);
        var rxne := RxneRaised(sr, cr1);
        Tx() == TxSide(old(Tx()), TcRaised(sr, cr1), TxeRaised(sr, cr1), wordLength, parity)
        && Rx() == (if rxne then RxneClose(old(Rx()), dr, wordLength, parity) else old(Rx()))
        && trace == old(trace) + TxSideEvents(old(Tx()), TcRaised(sr, cr1), TxeRaised(sr, cr1), wordLength)
             + (if rxne then RxneEvents(old(Rx()), dr, wordLength, parity) else [])
             + Callbacks(Tests(sr, cr1, regs.CR3))
    {
      ghost var sr0, cr10 := regs.SR, regs.CR1;
      HandleTxSide();
      ghost var sr1, cr11 := regs.SR, regs.CR1;
      TcKeepsFlags(sr0, sr1);
      TxeKeepsEnables(cr10, cr11);
      HandleRxne(dr);
      RxneKeepsLowBits(cr11, regs.CR1);
      TestsAfterTc(sr0, sr1, cr10, regs.CR1, regs.CR3);
      HandleOthers();
    }
  }

  predicate TcRaised(sr: bv32, cr1: bv32)
  {
    sr & SR_TC != 0 && cr1 & CR1_TCIE != 0
  }

  predicate TxeRaised(sr: bv32, cr1: bv32)
  {
    sr & SR_TXE != 0 && cr1 & CR1_TXEIE != 0
  }

  predicate RxneRaised(sr: bv32, cr1: bv32)
  {
    sr & SR_RXNE != 0 && cr1 & CR1_RXNEIE != 0
  }

  /** The transmit state after the TC part (if raised), then the TXE part (if raised). */
  function TxSide(tx: TxState, tc: bool, txe: bool, wordLength: byte, parity: byte): TxState
  {
    var tx1 := if tc then TcClose(tx) else tx;
    if txe then TxeSend(tx1, wordLength, parity) else tx1
  }

  /** The events of the TC and TXE parts. */
  function TxSideEvents(tx: TxState, tc: bool, txe: bool, wordLength: byte): seq<Event>
  {
    (if tc then TcEvents(tx) else []) + (if txe then TxeWrites(if tc then TcClose(tx) else tx, wordLength) else [])
  }

  /** Clearing TC leaves TXE and RXNE. */
  lemma TcKeepsFlags(sr0: bv32, sr1: bv32)
    requires sr1 == sr0 || sr1 == ClearBits(sr0, SR_TC)
    ensures (sr1 & SR_TXE != 0 <==> sr0 & SR_TXE != 0) && (sr1 & SR_RXNE != 0 <==> sr0 & SR_RXNE != 0)
  {
    if sr1 != sr0 {
      DisjointMasks(sr0, SR_TC, SR_TXE);
      DisjointMasks(sr0, SR_TC, SR_RXNE);
    }
  }

  /** Clearing TXEIE leaves RXNEIE and bits 0 and 2 of CR1. */
  lemma TxeKeepsEnables(cr0: bv32, cr1: bv32)
    requires cr1 == cr0 || cr1 == ClearBits(cr0, CR1_TXEIE)
    ensures (cr1 & CR1_RXNEIE != 0 <==> cr0 & CR1_RXNEIE != 0)
    ensures cr1 & CR1_RXNEIE_POSITION_MASK == cr0 & CR1_RXNEIE_POSITION_MASK
  {
    if cr1 != cr0 {
      DisjointMasks(cr0, CR1_TXEIE, CR1_RXNEIE);
      DisjointMasks(cr0, CR1_TXEIE, CR1_RXNEIE_POSITION_MASK);
    }
  }

  /** Clearing RXNEIE leaves bits 0 and 2 of CR1. */
  lemma RxneKeepsLowBits(cr0: bv32, cr1: bv32)
    requires cr1 == cr0 || cr1 == ClearBits(cr0, CR1_RXNEIE)
    ensures cr1 & CR1_RXNEIE_POSITION_MASK == cr0 & CR1_RXNEIE_POSITION_MASK
  {
    if cr1 != cr0 {
      DisjointMasks(cr0, CR1_RXNEIE, CR1_RXNEIE_POSITION_MASK);
    }
  }

  /** The TC part clears at most TC, and TXEIE and RXNEIE do not enter the later tests, except bits 0 and 2 of CR1. */
  lemma TestsAfterTc(sr0: bv32, sr1: bv32, cr10: bv32, cr12: bv32, cr3: bv32)
    requires sr1 == sr0 || sr1 == ClearBits(sr0, SR_TC)
    requires cr12 & CR1_RXNEIE_POSITION_MASK == cr10 & CR1_RXNEIE_POSITION_MASK
    ensures Tests(sr1, cr12, cr3) == Tests(sr0, cr10, cr3)
  {
    if sr1 != sr0 {
      DisjointMasks(sr0, SR_TC, SR_CTS);
      DisjointMasks(sr0, SR_TC, SR_IDLE);
      DisjointMasks(sr0, SR_TC, SR_ORE_POSITION_MASK);
      DisjointMasks(sr0, SR_TC, SR_FE);
      DisjointMasks(sr0, SR_TC, SR_ORE);
    }
  }

  /** The CTS and IDLE parts leave the bits the overrun and error tests read. */
  lemma TestsAfterCtsIdle(sr: bv32, cr1: bv32, cr3: bv32)
    ensures OverrunErrorCallbacks(Tests(OthersSr(sr, cr3), cr1, cr3)) == OverrunErrorCallbacks(Tests(sr, cr1, cr3))
  {
    KeepsTestedBits(sr, sr & SR_CTS != 0 && cr3 & CR3_CTSE != 0, sr & SR_IDLE != 0 && cr3 & CR3_CTSE != 0);
    IdleUntouched(sr, sr & SR_CTS != 0 && cr3 & CR3_CTSE != 0);
    var t, t2 := Tests(sr, cr1, cr3), Tests(OthersSr(sr, cr3), cr1, cr3);
    assert t2.overrun == t.overrun && t2.errors == t.errors && t2.framing == t.framing && t2.overrunError == t.overrunError;
  }

  /** Clearing CTS leaves the IDLE flag as it was. */
  lemma IdleUntouched(sr: bv32, cts: bool)
    ensures var s1 := if cts then ClearBits(sr, SR_CTS) else sr;
      s1 & SR_IDLE != 0 <==> sr & SR_IDLE != 0
  {
  }

  /** SR after the CTS and IDLE parts: each flag cleared when it was reported. */
  function OthersSr(sr: bv32, cr3: bv32): bv32
  {
    var s1 := if sr & SR_CTS != 0 && cr3 & CR3_CTSE != 0 then ClearBits(sr, SR_CTS) else sr;
    if sr & SR_IDLE != 0 && cr3 & CR3_CTSE != 0 then ClearBits(s1, SR_IDLE) else s1
  }

  /** Clearing CTS and IDLE keeps the bits 0, 1 and 3 that the later tests read. */
  lemma KeepsTestedBits(sr: bv32, cts: bool, idle: bool)
    ensures var s1 := if cts then ClearBits(sr, SR_CTS) else sr;
      var s2 := if idle then ClearBits(s1, SR_IDLE) else s1;
      (s2 & SR_ORE_POSITION_MASK != 0 <==> sr & SR_ORE_POSITION_MASK != 0)
      && (s2 & SR_FE != 0 <==> sr & SR_FE != 0) && (s2 & SR_ORE != 0 <==> sr & SR_ORE != 0)
  {
  }
}
