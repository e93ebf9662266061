/**
 * The SPI driver (`drivers/Src/stm32f407xx_spi_driver.c`): CR1 composition
 * in `SPI_Init`, the one-bit control helpers, blocking send and receive, and
 * the interrupt-driven transfer state of the handle that the TXE, RXNE and
 * OVR handlers advance.
 *
 * In 16-bit frame mode the driver reads and writes two bytes at the buffer
 * pointer but advances the pointer by one byte only (`(uint16_t*)p++` casts
 * after the increment), while the length drops by two. The application
 * buffers are sequences with a position; a store past the end of the
 * receive buffer is dropped.
 */
module Spi {
  import opened Bits
  import Seqs

  const SPI_DEVISE_MODE_SLAVE: bv8 := 0
  const SPI_DEVISE_MODE_MASTER: bv8 := 1

  const SPI_BUS_CONFIG_FD: bv8 := 1
  const SPI_BUS_CONFIG_HD: bv8 := 2
  const SPI_BUS_CONFIG_SIMPLEX_RXONLY: bv8 := 3

  const SPI_DFF_BITS8: bv8 := 0
  const SPI_DFF_BITS16: bv8 := 1

  const ENABLE: byte := 1

  const CR1_CPHA_POS: bv32 := 0
  const CR1_CPOL_POS: bv32 := 1
  const CR1_MSTR_POS: bv32 := 2
  const CR1_BR_POS: bv32 := 3
  const CR1_SSM_POS: bv32 := 9
  const CR1_DFF_POS: bv32 := 11
  const CR1_SPE: bv32 := 1 << 6
  const CR1_SSI: bv32 := 1 << 8
  const CR1_RXONLY: bv32 := 1 << 10
  const CR1_DFF: bv32 := 1 << 11
  const CR1_BIDIMODE: bv32 := 1 << 15
  const CR2_SSOE: bv32 := 1 << 2
  const CR2_ERRIE: bv32 := 1 << 5
  const CR2_RXNEIE: bv32 := 1 << 6
  const CR2_TXEIE: bv32 := 1 << 7
  const SR_RXNE: bv32 := 1 << 0
  const SR_TXE: bv32 := 1 << 1
  const SR_OVR: bv32 := 1 << 6

  const SPI_READY: byte := 0
  const SPI_BUSY_IN_TX: byte := 1
  const SPI_BUSY_IN_RX: byte := 2

  const SPI_EVENT_TX_CMPLT: nat := 1
  const SPI_EVENT_RX_CMPLT: nat := 2
  const SPI_EVENT_OVR_ERR: nat := 3

  const U32: nat := 0x1_0000_0000

  // ----- SPI_Init -----

  /** The bus-configuration step applied to `temp`, which so far holds the device mode. */
  function BusBits(temp: bv32, bus: bv8): bv32
  {
    if bus == SPI_BUS_CONFIG_FD then ClearBits(temp, CR1_BIDIMODE)
    else if bus == SPI_BUS_CONFIG_HD then SetBits(temp, CR1_BIDIMODE)
    else if bus == SPI_BUS_CONFIG_SIMPLEX_RXONLY then SetBits(ClearBits(temp, CR1_BIDIMODE), CR1_RXONLY)
    else temp
  }

  /** The SPI configuration of a handle (`SPI_Config_t`). */
  datatype Config = Config(deviceMode: bv8, busConfig: bv8, sclkSpeed: bv8, dff: bv8, cpol: bv8, cpha: bv8, ssm: bv8)

  /** Every field holds one of its defined values. */
  predicate ValidConfig(c: Config)
  {
    c.deviceMode <= 1 && 1 <= c.busConfig <= 3 && c.sclkSpeed <= 7 && c.dff <= 1 && c.cpol <= 1 && c.cpha <= 1 && c.ssm <= 1
  }

  /** CR1 as `SPI_Init` assigns it: the mode at bit 2, the bus bits, then the frame-format fields OR-ed in. */
  function Cr1Config(c: Config): bv32
  {
    Cr1Of(BusBits((c.deviceMode as bv32) << CR1_MSTR_POS, c.busConfig),
      c.sclkSpeed as bv32, c.dff as bv32, c.cpol as bv32, c.cpha as bv32, c.ssm as bv32)
  }

  /** The frame-format fields OR-ed onto the mode and bus bits. */
  function Cr1Of(bus: bv32, speed: bv32, dff: bv32, cpol: bv32, cpha: bv32, ssm: bv32): bv32
  {
    bus | (speed << CR1_BR_POS) | (dff << CR1_DFF_POS) | (cpol << CR1_CPOL_POS) | cpha | (ssm << CR1_SSM_POS)
  }

  /** Bit `k` of a register. */
  function BitOf(r: bv32, k: bv32): bool
    requires k < 32
  {
    (r >> k) & 1 == 1
  }

  /** The bus configuration sets BIDIMODE for half duplex only, and RXONLY for simplex receive only. */
  lemma BusBitsExact(mode: bv8, bus: bv8)
    requires mode <= 1 && 1 <= bus <= 3
    ensures BitOf(BusBits((mode as bv32) << CR1_MSTR_POS, bus), 15) <==> bus == SPI_BUS_CONFIG_HD
    ensures BitOf(BusBits((mode as bv32) << CR1_MSTR_POS, bus), 10) <==> bus == SPI_BUS_CONFIG_SIMPLEX_RXONLY
    ensures BitOf(BusBits((mode as bv32) << CR1_MSTR_POS, bus), 2) <==> mode == SPI_DEVISE_MODE_MASTER
    ensures BusBits((mode as bv32) << CR1_MSTR_POS, bus) & !(CR1_BIDIMODE | CR1_RXONLY | 4) == 0
  {
    var m: bv32 := if mode == 0 then 0 else 4;
    assert (mode as bv32) << CR1_MSTR_POS == m;
    if bus == SPI_BUS_CONFIG_FD {
      assert BusBits(m, bus) == m;
    } else if bus == SPI_BUS_CONFIG_HD {
      assert BusBits(m, bus) == m | CR1_BIDIMODE;
    } else {
      assert BusBits(m, bus) == m | CR1_RXONLY;
    }
  }

  /**
   * For a valid configuration the frame format can be read back from CR1:
   * the clock speed from bits 3..5, DFF from bit 11, CPOL from bit 1, CPHA
   * from bit 0 and SSM from bit 9.
   */
  lemma Cr1ConfigFormat(c: Config)
    requires ValidConfig(c)
    ensures (Cr1Config(c) >> 3) & 7 == c.sclkSpeed as bv32
    ensures BitOf(Cr1Config(c), 11) <==> c.dff == SPI_DFF_BITS16
    ensures BitOf(Cr1Config(c), 1) <==> c.cpol == 1
    ensures BitOf(Cr1Config(c), 0) <==> c.cpha == 1
    ensures BitOf(Cr1Config(c), 9) <==> c.ssm == 1
  {
    var bus := BusBits((c.deviceMode as bv32) << CR1_MSTR_POS, c.busConfig);
    BusBitsExact(c.deviceMode, c.busConfig);
    Cr1Assembled(bus, c.sclkSpeed as bv32, c.dff as bv32, c.cpol as bv32, c.cpha as bv32, c.ssm as bv32);
  }

  /**
   * For a valid configuration the mode is bit 2 of CR1, half duplex is
   * BIDIMODE and simplex receive-only is RXONLY; SPE and SSI are left clear.
   */
  lemma Cr1ConfigRole(c: Config)
    requires ValidConfig(c)
    ensures BitOf(Cr1Config(c), 2) <==> c.deviceMode == SPI_DEVISE_MODE_MASTER
    ensures BitOf(Cr1Config(c), 15) <==> c.busConfig == SPI_BUS_CONFIG_HD
    ensures BitOf(Cr1Config(c), 10) <==> c.busConfig == SPI_BUS_CONFIG_SIMPLEX_RXONLY
    ensures Cr1Config(c) & (CR1_SPE | CR1_SSI) == 0
  {
    var bus := BusBits((c.deviceMode as bv32) << CR1_MSTR_POS, c.busConfig);
    BusBitsExact(c.deviceMode, c.busConfig);
    Cr1Assembled(bus, c.sclkSpeed as bv32, c.dff as bv32, c.cpol as bv32, c.cpha as bv32, c.ssm as bv32);
  }

  /** Reading the fields back out of the OR of the shifted parts. */
  lemma Cr1Assembled(bus: bv32, speed: bv32, dff: bv32, cpol: bv32, cpha: bv32, ssm: bv32)
    requires bus & !(CR1_BIDIMODE | CR1_RXONLY | 4) == 0
    requires speed < 8 && dff < 2 && cpol < 2 && cpha < 2 && ssm < 2
    ensures var r := Cr1Of(bus, speed, dff, cpol, cpha, ssm);
      (r >> 3) & 7 == speed
      && (BitOf(r, 11) <==> dff == 1) && (BitOf(r, 1) <==> cpol == 1) && (BitOf(r, 0) <==> cpha == 1)
      && (BitOf(r, 9) <==> ssm == 1) && (BitOf(r, 2) <==> BitOf(bus, 2))
      && (BitOf(r, 15) <==> BitOf(bus, 15)) && (BitOf(r, 10) <==> BitOf(bus, 10))
      && r & (CR1_SPE | CR1_SSI) == 0
  {
  }

  // ----- frames -----

  /** `*((uint16_t*)p)` on the little-endian core: byte `p` low, byte `p + 1` high. */
  function Word(buf: seq<byte>, p: nat): uint16
  {
    ByteAt(buf, p) + 256 * ByteAt(buf, p + 1)
  }

  /** The DR value sent from buffer position `p`. */
  function TxFrame(buf: seq<byte>, p: nat, sixteen: bool): uint16
  {
    if sixteen then Word(buf, p) else ByteAt(buf, p)
  }

  /** Length units one frame uses up: 2 in 16-bit mode, 1 in 8-bit mode. (The pointer always moves by 1.) */
  function FrameLen(sixteen: bool): nat
  {
    if sixteen then 2 else 1
  }

  /** A store of size one byte or two at `i`, dropped past the end of the buffer. */
  function Put(buf: seq<byte>, i: nat, b: byte): (r: seq<byte>)
    ensures |r| == |buf|
  {
    if i < |buf| then buf[i := b] else buf
  }

  /** The store of a received DR value at position `p`: `*((uint16_t*)p) = DR` or `*p = DR`. */
  function Store(buf: seq<byte>, p: nat, dr: uint16, sixteen: bool): (r: seq<byte>)
    ensures |r| == |buf|
  {
    if sixteen then Put(Put(buf, p, dr % 256), p + 1, dr / 256) else Put(buf, p, dr % 256)
  }

  /** Consecutive 16-bit frames overlap: the high byte of one is the low byte of the next. */
  lemma WordsOverlap(buf: seq<byte>, p: nat)
    ensures Word(buf, p) / 256 == Word(buf, p + 1) % 256
  {
    var b1 := ByteAt(buf, p + 1);
    assert Word(buf, p) == ByteAt(buf, p) + 256 * b1;
    assert Word(buf, p + 1) == b1 + 256 * ByteAt(buf, p + 2);
  }

  datatype Event = AwaitTxe | AwaitRxne | WriteDR(v: uint16) | ReadDR(d: uint16) | ReadSR | Callback(code: nat)

  /** The number of frames a blocking transfer of `len` length units moves. */
  function FrameCount(len: nat, sixteen: bool): nat
  {
    if sixteen then len / 2 else len
  }

  /** The first `n` iterations of the blocking send. */
  function SendLoop(buf: seq<byte>, n: nat, sixteen: bool): (t: seq<Event>)
    ensures |t| == n + n
  {
    if n == 0 then [] else SendLoop(buf, n - 1, sixteen) + [AwaitTxe, WriteDR(TxFrame(buf, n - 1, sixteen))]
  }

  /** The DR values written, in order. */
  function Written(t: seq<Event>): seq<uint16>
  {
    if t == [] then [] else (if t[0].WriteDR? then [t[0].v] else []) + Written(t[1..])
  }

  lemma {:induction false} WrittenConcat(a: seq<Event>, b: seq<Event>)
    ensures Written(a + b) == Written(a) + Written(b)
    decreases |a|
  {
    if a == [] {
      assert a + b == b;
    } else {
      var head := if a[0].WriteDR? then [a[0].v] else [];
      assert (a + b)[0] == a[0] && (a + b)[1..] == a[1..] + b;
      assert Written(a + b) == head + Written(a[1..] + b);
      assert Written(a) == head + Written(a[1..]);
      WrittenConcat(a[1..], b);
      assert head + (Written(a[1..]) + Written(b)) == (head + Written(a[1..])) + Written(b);
    }
  }

  lemma WrittenPair(v: uint16)
    ensures Written([AwaitTxe, WriteDR(v)]) == [v]
  {
    var pair := [AwaitTxe, WriteDR(v)];
    assert pair[1..] == [WriteDR(v)];
    assert [WriteDR(v)][1..] == [];
    assert Written(pair) == [] + Written(pair[1..]);
  }

  /** The frames the blocking send writes: frame `k` starts at buffer byte `k`. */
  function Frames(buf: seq<byte>, n: nat, sixteen: bool): (f: seq<uint16>)
    ensures |f| == n
    ensures forall k :: 0 <= k < n ==> f[k] == TxFrame(buf, k, sixteen)
  {
    if n == 0 then [] else Frames(buf, n - 1, sixteen) + [TxFrame(buf, n - 1, sixteen)]
  }

  lemma {:induction false} SendLoopWrites(buf: seq<byte>, n: nat, sixteen: bool)
    ensures Written(SendLoop(buf, n, sixteen)) == Frames(buf, n, sixteen)
  {
    if n > 0 {
      var v := TxFrame(buf, n - 1, sixteen);
      SendLoopWrites(buf, n - 1, sixteen);
      WrittenConcat(SendLoop(buf, n - 1, sixteen), [AwaitTxe, WriteDR(v)]);
      WrittenPair(v);
    }
  }

  /**
   * An 8-bit blocking send of `len` bytes writes the buffer's first `len`
   * bytes; a 16-bit one writes `len / 2` frames, the overlapping words at
   * bytes 0, 1, ..., so only the first `len / 2 + 1` bytes reach the line.
   */
  lemma SendDataFrames(buf: seq<byte>, len: nat)
    requires len <= |buf|
    ensures Written(SendLoop(buf, FrameCount(len, false), false)) == buf[..len]
    ensures var f := Written(SendLoop(buf, FrameCount(len, true), true));
      |f| == len / 2 && forall k :: 0 <= k < len / 2 ==> f[k] == buf[k] as int + 256 * buf[k + 1] as int
  {
    SendLoopWrites(buf, len, false);
    SendLoopWrites(buf, len / 2, true);
    var f := Frames(buf, len, false);
    assert forall k :: 0 <= k < len ==> f[k] == buf[k];
  }

  /** The length counter after `k` frames in 16-bit mode: `Len--; Len--;` in 32 bits. */
  function CountDown(len: uint32, k: nat): uint32
  {
    (len - 2 * k) % U32
  }

  /** An odd length in 16-bit mode never reaches 0, so the blocking loop would not end. */
  lemma OddLengthNeverEnds(len: uint32, k: nat)
    requires len % 2 == 1
    ensures CountDown(len, k) != 0 && CountDown(len, k) % 2 == 1
  {
    var d := len - 2 * k;
    var q, r := d / U32, CountDown(len, k);
    assert d == q * U32 + r;
    var m := q * (U32 / 2);
    assert q * U32 == 2 * m;
    assert len == 2 * (len / 2) + 1;
    assert r == 2 * (len / 2 - k - m) + 1;
  }

  /** The stores of the DR values `incoming` from position 0. */
  function ReceiveLoop(buf: seq<byte>, incoming: seq<uint16>, sixteen: bool): (r: seq<byte>)
    ensures |r| == |buf|
  {
    if incoming == [] then buf
    else Store(ReceiveLoop(buf, incoming[..|incoming| - 1], sixteen), |incoming| - 1, incoming[|incoming| - 1], sixteen)
  }

  /** The events of the blocking receive. */
  function ReceiveEvents(incoming: seq<uint16>): seq<Event>
  {
    if incoming == [] then [] else ReceiveEvents(incoming[..|incoming| - 1]) + [AwaitRxne, ReadDR(incoming[|incoming| - 1])]
  }

  /**
   * In 16-bit mode the overlapping stores leave the low byte of each frame
   * at its own position and the high byte of the last frame after them:
   * the other high bytes are overwritten.
   */
  lemma {:induction false} ReceiveSixteen(buf: seq<byte>, incoming: seq<uint16>)
    requires |incoming| < |buf|
    ensures var r := ReceiveLoop(buf, incoming, true);
      (forall k :: 0 <= k < |incoming| ==> r[k] == incoming[k] % 256)
      && (incoming != [] ==> r[|incoming|] == incoming[|incoming| - 1] / 256)
      && r[|incoming| + 1..] == buf[|incoming| + 1..]
    decreases |incoming|
  {
    if incoming != [] {
      var n := |incoming|;
      var init := incoming[..n - 1];
      ReceiveSixteen(buf, init);
      assert forall k :: 0 <= k < n - 1 ==> init[k] == incoming[k];
    }
  }

  /** In 8-bit mode the buffer's first bytes become the low bytes of the DR values, in order. */
  lemma {:induction false} ReceiveEight(buf: seq<byte>, incoming: seq<uint16>)
    requires |incoming| <= |buf|
    ensures var r := ReceiveLoop(buf, incoming, false);
      (forall k :: 0 <= k < |incoming| ==> r[k] == incoming[k] % 256) && r[|incoming|..] == buf[|incoming|..]
    decreases |incoming|
  {
    if incoming != [] {
      var n := |incoming|;
      var init := incoming[..n - 1];
      ReceiveEight(buf, init);
      assert forall k :: 0 <= k < n - 1 ==> init[k] == incoming[k];
    }
  }

  // ----- the interrupt-driven transfer state -----

  /** The transmit half of the handle: buffer and position (`pTxBuffer`), `TxLen`, `TxState`. */
  datatype TxState = TxState(buf: seq<byte>, pos: nat, len: uint32, state: byte)

  /** The receive half: buffer and position (`pRxBuffer`), `RxLen`, `RxState`. */
  datatype RxState = RxState(buf: seq<byte>, pos: nat, len: uint32, state: byte)

  function Sub32(len: uint32, n: nat): uint32
  {
    (len - n) % U32
  }

  /** `SPI_CloseTransmission` on the transmit state. */
  function CloseTx(tx: TxState): TxState
  {
    TxState([], 0, 0, SPI_READY)
  }

  /** `spi_txe_interrupt_handle`: one frame, then the close when the length reaches 0. It does not look at `TxState`. */
  function TxeStep(tx: TxState, sixteen: bool): TxState
  {
    var next := tx.(pos := tx.pos + 1, len := Sub32(tx.len, FrameLen(sixteen)));
    if next.len == 0 then CloseTx(next) else next
  }

  /** The events of one TXE interrupt: the DR write, then `TX_CMPLT` after the close. */
  function TxeEvents(tx: TxState, sixteen: bool): seq<Event>
  {
    [WriteDR(TxFrame(tx.buf, tx.pos, sixteen))] + (if Sub32(tx.len, FrameLen(sixteen)) == 0 then [Callback(SPI_EVENT_TX_CMPLT)] else [])
  }

  /** `n` TXE interrupts in a row. */
  function TxeRun(tx: TxState, n: nat, sixteen: bool): TxState
    decreases n
  {
    if n == 0 then tx else TxeRun(TxeStep(tx, sixteen), n - 1, sixteen)
  }

  function TxeRunEvents(tx: TxState, n: nat, sixteen: bool): seq<Event>
    decreases n
  {
    if n == 0 then [] else TxeEvents(tx, sixteen) + TxeRunEvents(TxeStep(tx, sixteen), n - 1, sixteen)
  }

  /** The length units of `k` frames. */
  function Units(k: nat, sixteen: bool): nat
  {
    if sixteen then k + k else k
  }

  /** A transmission armed by `SPI_SendDataIT`. */
  function Armed(buf: seq<byte>, len: uint32): TxState
  {
    TxState(buf, 0, len, SPI_BUSY_IN_TX)
  }

  /**
   * `k` frames' worth of length: after `k - 1` TXE interrupts the
   * transmission is still busy at position `k - 1`, and the `k`-th closes it.
   */
  lemma {:induction false} TxeRunFrom(buf: seq<byte>, p: nat, k: nat, sixteen: bool)
    requires 0 < k && Units(k, sixteen) < U32
    ensures TxeRun(TxState(buf, p, Units(k, sixteen), SPI_BUSY_IN_TX), k - 1, sixteen)
      == TxState(buf, p + k - 1, FrameLen(sixteen), SPI_BUSY_IN_TX)
    ensures TxeRun(TxState(buf, p, Units(k, sixteen), SPI_BUSY_IN_TX), k, sixteen) == TxState([], 0, 0, SPI_READY)
    decreases k
  {
    var s := FrameLen(sixteen);
    var tx := TxState(buf, p, Units(k, sixteen), SPI_BUSY_IN_TX);
    if k > 1 {
      assert Units(k, sixteen) == Units(k - 1, sixteen) + s;
      assert TxeStep(tx, sixteen) == TxState(buf, p + 1, Units(k - 1, sixteen), SPI_BUSY_IN_TX);
      TxeRunFrom(buf, p + 1, k - 1, sixteen);
    } else {
      assert TxeStep(tx, sixteen) == TxState([], 0, 0, SPI_READY);
    }
  }

  /** The interrupt-driven send of `k` frames writes the same frames as the blocking send. */
  lemma {:induction false} TxeRunWrites(buf: seq<byte>, p: nat, k: nat, sixteen: bool)
    requires 0 < k && Units(k, sixteen) < U32
    ensures Written(TxeRunEvents(TxState(buf, p, Units(k, sixteen), SPI_BUSY_IN_TX), k, sixteen))
      == FramesFrom(buf, p, k, sixteen)
    decreases k
  {
    var s := FrameLen(sixteen);
    var tx := TxState(buf, p, Units(k, sixteen), SPI_BUSY_IN_TX);
    var ev := TxeEvents(tx, sixteen);
    TxeEventsWrite(tx, sixteen);
    if k > 1 {
      TxeStepMoves(buf, p, k, sixteen);
      TxeRunWrites(buf, p + 1, k - 1, sixteen);
      WrittenConcat(ev, TxeRunEvents(TxeStep(tx, sixteen), k - 1, sixteen));
    } else {
      assert TxeRunEvents(tx, 1, sixteen) == ev + [];
      assert ev + [] == ev;
    }
  }

  /** One TXE interrupt writes one frame, the one at the current position. */
  lemma TxeEventsWrite(tx: TxState, sixteen: bool)
    ensures Written(TxeEvents(tx, sixteen)) == [TxFrame(tx.buf, tx.pos, sixteen)]
  {
    var v := TxFrame(tx.buf, tx.pos, sixteen);
    var ev := TxeEvents(tx, sixteen);
    var tail: seq<Event> := if Sub32(tx.len, FrameLen(sixteen)) == 0 then [Callback(SPI_EVENT_TX_CMPLT)] else [];
    assert ev == [WriteDR(v)] + tail;
    assert ev[1..] == tail;
    if tail != [] {
      assert tail[1..] == [];
      assert Written(tail) == [];
    }
  }

  /** With more than one frame left, a TXE interrupt moves one byte on and keeps the transmission busy. */
  lemma TxeStepMoves(buf: seq<byte>, p: nat, k: nat, sixteen: bool)
    requires 1 < k && Units(k, sixteen) < U32
    ensures TxeStep(TxState(buf, p, Units(k, sixteen), SPI_BUSY_IN_TX), sixteen)
      == TxState(buf, p + 1, Units(k - 1, sixteen), SPI_BUSY_IN_TX)
  {
    assert Units(k, sixteen) == Units(k - 1, sixteen) + FrameLen(sixteen);
  }

  /** The frames from buffer position `p` on. */
  function FramesFrom(buf: seq<byte>, p: nat, k: nat, sixteen: bool): (f: seq<uint16>)
    ensures |f| == k
    ensures forall i :: 0 <= i < k ==> f[i] == TxFrame(buf, p + i, sixteen)
    decreases k
  {
    if k == 0 then [] else [TxFrame(buf, p, sixteen)] + FramesFrom(buf, p + 1, k - 1, sixteen)
  }

  /**
   * An interrupt-driven send armed with `len` writes the frames of the
   * blocking send of `len` and then is ready again (`len` a positive
   * multiple of the frame size).
   */
  lemma SendItMatchesBlocking(buf: seq<byte>, len: uint32, sixteen: bool)
    requires len > 0 && len % FrameLen(sixteen) == 0
    ensures TxeRun(Armed(buf, len), FrameCount(len, sixteen), sixteen) == TxState([], 0, 0, SPI_READY)
    ensures Written(TxeRunEvents(Armed(buf, len), FrameCount(len, sixteen), sixteen))
      == Written(SendLoop(buf, FrameCount(len, sixteen), sixteen))
  {
    var k := FrameCount(len, sixteen);
    assert Units(k, sixteen) == len;
    TxeRunFrom(buf, 0, k, sixteen);
    TxeRunWrites(buf, 0, k, sixteen);
    SendLoopWrites(buf, k, sixteen);
    var a, b := FramesFrom(buf, 0, k, sixteen), Frames(buf, k, sixteen);
    assert forall i :: 0 <= i < k ==> a[i] == b[i];
  }

  /** In 16-bit mode an odd `TxLen` steps over 0: no TXE interrupt ever closes the transmission. */
  lemma {:induction false} OddTxLenNeverCloses(tx: TxState, n: nat)
    requires tx.len % 2 == 1 && tx.state == SPI_BUSY_IN_TX
    ensures TxeRun(tx, n, true).state == SPI_BUSY_IN_TX && TxeRun(tx, n, true).len % 2 == 1
    decreases n
  {
    if n > 0 {
      var next := tx.(pos := tx.pos + 1, len := Sub32(tx.len, 2));
      OddLengthNeverEnds(tx.len, 1);
      assert next.len == CountDown(tx.len, 1);
      assert TxeStep(tx, true) == next;
      OddTxLenNeverCloses(next, n - 1);
    }
  }

  /** `SPI_CloseReception` on the receive state; the buffer, no longer referenced by the handle, is set aside. */
  function CloseRx(rx: RxState): RxState
  {
    RxState(rx.buf, 0, 0, SPI_READY)
  }

  /** `spi_rxne_interrupt_handle`: one DR value stored, then the close when the length reaches 0. */
  function RxneStep(rx: RxState, dr: uint16, sixteen: bool): RxState
  {
    var next := rx.(buf := Store(rx.buf, rx.pos, dr, sixteen), pos := rx.pos + 1, len := Sub32(rx.len, FrameLen(sixteen)));
    if next.len == 0 then CloseRx(next) else next
  }

  /** Successive RXNE interrupts for the DR values `incoming`. */
  function RxneRun(rx: RxState, incoming: seq<uint16>, sixteen: bool): RxState
    decreases |incoming|
  {
    if incoming == [] then rx else RxneRun(RxneStep(rx, incoming[0], sixteen), incoming[1..], sixteen)
  }

  /**
   * An interrupt-driven receive of `k` frames stores into the buffer exactly
   * what the blocking receive stores, then is ready again.
   */
  lemma {:induction false} RxneRunMatchesBlocking(buf: seq<byte>, done: seq<uint16>, incoming: seq<uint16>, sixteen: bool)
    requires incoming != [] && Units(|incoming|, sixteen) < U32
    ensures RxneRun(RxState(ReceiveLoop(buf, done, sixteen), |done|, Units(|incoming|, sixteen), SPI_BUSY_IN_RX), incoming, sixteen)
      == RxState(ReceiveLoop(buf, done + incoming, sixteen), 0, 0, SPI_READY)
    decreases |incoming|
  {
    var s := FrameLen(sixteen);
    var k := |incoming|;
    var rx := RxState(ReceiveLoop(buf, done, sixteen), |done|, Units(k, sixteen), SPI_BUSY_IN_RX);
    var stored := Store(rx.buf, |done|, incoming[0], sixteen);
    assert (done + [incoming[0]])[..|done|] == done;
    assert stored == ReceiveLoop(buf, done + [incoming[0]], sixteen);
    if k > 1 {
      assert Units(k, sixteen) == Units(k - 1, sixteen) + s;
      assert RxneStep(rx, incoming[0], sixteen) == RxState(stored, |done| + 1, Units(k - 1, sixteen), SPI_BUSY_IN_RX);
      RxneRunMatchesBlocking(buf, done + [incoming[0]], incoming[1..], sixteen);
      assert done + [incoming[0]] + incoming[1..] == done + incoming;
    } else {
      assert incoming == [incoming[0]];
      assert RxneStep(rx, incoming[0], sixteen) == RxState(stored, 0, 0, SPI_READY);
    }
  }

  // ----- registers and handle -----

  class SpiRegs {
    var CR1: bv32
    var CR2: bv32
    var SR: bv32
    var DR: uint16

    constructor ()
      ensures CR1 == 0 && CR2 == 0 && SR == 0 && DR == 0
    {
      CR1, CR2, SR, DR := 0, 0, 0, 0;
    }

    /** `SPI_PeripheralControl`: SPE set or cleared. */
    method PeripheralControl(enable: byte)
      modifies this`CR1
      ensures CR1 == if enable == ENABLE then SetBits(old(CR1), CR1_SPE) else ClearBits(old(CR1), CR1_SPE)
    {
      if enable == ENABLE {
        CR1 := SetBits(CR1, CR1_SPE);
      } else {
        CR1 := ClearBits(CR1, CR1_SPE);
      }
    }

    /** `SPI_SSIConfig`: SSI set or cleared. */
    method SsiConfig(enable: byte)
      modifies this`CR1
      ensures CR1 == if enable == ENABLE then SetBits(old(CR1), CR1_SSI) else ClearBits(old(CR1), CR1_SSI)
    {
      if enable == ENABLE {
        CR1 := SetBits(CR1, CR1_SSI);
      } else {
        CR1 := ClearBits(CR1, CR1_SSI);
      }
    }

    /** `SPI_SSOEConfig`: SSOE in CR2 set or cleared. */
    method SsoeConfig(enable: byte)
      modifies this`CR2
      ensures CR2 == if enable == ENABLE then SetBits(old(CR2), CR2_SSOE) else ClearBits(old(CR2), CR2_SSOE)
    {
      if enable == ENABLE {
        CR2 := SetBits(CR2, CR2_SSOE);
      } else {
        CR2 := ClearBits(CR2, CR2_SSOE);
      }
    }

    /** `SPI_GetFlagStatus`: whether any bit of the flag mask is set in SR. */
    method GetFlagStatus(flag: bv32) returns (set_: bool)
      ensures set_ <==> SR & flag != 0
    {
      set_ := SR & flag != 0;
    }
  }

  class SpiHandle {
    const regs: SpiRegs
    const config: Config

    var txBuf: seq<byte>
    var txPos: nat
    var txLen: uint32
    var txState: byte
    var rxBuf: seq<byte>
    var rxPos: nat
    var rxLen: uint32
    var rxState: byte

    /** Everything the driver did on the bus, oldest first. */
    var trace: seq<Event>

    function Tx(): TxState
      reads this`txBuf, this`txPos, this`txLen, this`txState
    {
      TxState(txBuf, txPos, txLen, txState)
    }

    function Rx(): RxState
      reads this`rxBuf, this`rxPos, this`rxLen, this`rxState
    {
      RxState(rxBuf, rxPos, rxLen, rxState)
    }

    constructor (regs: SpiRegs, config: Config)
      ensures this.regs == regs && this.config == config
      ensures Tx() == TxState([], 0, 0, SPI_READY) && Rx() == RxState([], 0, 0, SPI_READY) && trace == []
    {
      this.regs, this.config := regs, config;
      txBuf, txPos, txLen, txState := [], 0, 0, SPI_READY;
      rxBuf, rxPos, rxLen, rxState := [], 0, 0, SPI_READY;
      trace := [];
    }

    /** `SPI_Init`: CR1 assigned from the configuration. */
    method Init()
      modifies regs`CR1
      ensures regs.CR1 == Cr1Config(config)
    {
      regs.CR1 := Cr1Config(config);
    }

    /** 16-bit frames: DFF set in CR1, tested at each frame. */
    function Sixteen(): bool
      reads regs`CR1
    {
      regs.CR1 & CR1_DFF != 0
    }

    /**
     * `SPI_SendData` (blocking): a frame after each TXE until the length is
     * used up; in 16-bit mode the length must be even, or the counter steps
     * over 0 (see `OddLengthNeverEnds`).
     */
    method SendData(buf: seq<byte>, len: uint32)
      requires Sixteen() ==> len % 2 == 0
      modifies this`trace, regs`DR
      ensures trace == old(trace) + SendLoop(buf, FrameCount(len, Sixteen()), Sixteen())
    {
      var n: uint32 := len;
      var p: nat := 0;
      while n > 0
        invariant p + p * (FrameLen(Sixteen()) - 1) + n == len
        invariant Sixteen() ==> n % 2 == 0
        invariant trace == old(trace) + SendLoop(buf, p, Sixteen())
        decreases n
      {
        var v: uint16;
        if regs.CR1 & CR1_DFF != 0 {
          v := Word(buf, p);
          n := n - 2;
        } else {
          v := ByteAt(buf, p);
          n := n - 1;
        }
        regs.DR := v;
        trace := trace + [AwaitTxe, WriteDR(v)];
        Seqs.Regroup2(old(trace), SendLoop(buf, p, Sixteen()), [AwaitTxe, WriteDR(v)]);
        p := p + 1;
      }
      assert p == FrameCount(len, Sixteen());
    }

    /**
     * `SPI_ReceiveData` (blocking): a DR value stored after each RXNE until
     * the length is used up; `incoming` are the DR values in order.
     */
    method ReceiveData(buf: seq<byte>, len: uint32, incoming: seq<uint16>) returns (r: seq<byte>)
      requires Sixteen() ==> len % 2 == 0
      requires |incoming| == FrameCount(len, Sixteen())
      modifies this`trace
      ensures r == ReceiveLoop(buf, incoming, Sixteen())
      ensures trace == old(trace) + ReceiveEvents(incoming)
    {
      var n: uint32 := len;
      var p: nat := 0;
      r := buf;
      while n > 0
        invariant p + p * (FrameLen(Sixteen()) - 1) + n == len
        invariant Sixteen() ==> n % 2 == 0
        invariant p <= |incoming|
        invariant r == ReceiveLoop(buf, incoming[..p], Sixteen())
        invariant trace == old(trace) + ReceiveEvents(incoming[..p])
        decreases n
      {
        var dr := incoming[p];
        assert incoming[..p + 1][..p] == incoming[..p];
        trace := trace + [AwaitRxne, ReadDR(dr)];
        Seqs.Regroup2(old(trace), ReceiveEvents(incoming[..p]), [AwaitRxne, ReadDR(dr)]);
        if regs.CR1 & CR1_DFF != 0 {
          r := Put(Put(r, p, dr % 256), p + 1, dr / 256);
          n := n - 2;
        } else {
          r := Put(r, p, dr % 256);
          n := n - 1;
        }
        p := p + 1;
      }
      assert incoming[..p] == incoming;
    }

    /** `SPI_SendDataIT`: refused while busy transmitting, otherwise armed with TXEIE enabled. */
    method SendDataIT(buf: seq<byte>, len: uint32) returns (state: byte)
      modifies this`txBuf, this`txPos, this`txLen, this`txState, regs`CR2
      ensures state == old(txState)
      ensures old(txState) == SPI_BUSY_IN_TX ==> Tx() == old(Tx()) && regs.CR2 == old(regs.CR2)
      ensures old(txState) != SPI_BUSY_IN_TX ==> Tx() == Armed(buf, len) && regs.CR2 == SetBits(old(regs.CR2), CR2_TXEIE)
    {
      state := txState;
      if state != SPI_BUSY_IN_TX {
        txBuf, txPos := buf, 0;
        txLen := len;
        txState := SPI_BUSY_IN_TX;
        regs.CR2 := SetBits(regs.CR2, CR2_TXEIE);
      }
    }

    /** `SPI_ReceiveDataIT`: refused while busy receiving, otherwise armed with RXNEIE enabled. */
    method ReceiveDataIT(buf: seq<byte>, len: uint32) returns (state: byte)
      modifies this`rxBuf, this`rxPos, this`rxLen, this`rxState, regs`CR2
      ensures state == old(rxState)
      ensures old(rxState) == SPI_BUSY_IN_RX ==> Rx() == old(Rx()) && regs.CR2 == old(regs.CR2)
      ensures old(rxState) != SPI_BUSY_IN_RX ==>
        Rx() == RxState(buf, 0, len, SPI_BUSY_IN_RX) && regs.CR2 == SetBits(old(regs.CR2), CR2_RXNEIE)
    {
      state := rxState;
      if state != SPI_BUSY_IN_RX {
        rxBuf, rxPos := buf, 0;
        rxLen := len;
        rxState := SPI_BUSY_IN_RX;
        regs.CR2 := SetBits(regs.CR2, CR2_RXNEIE);
      }
    }

    /** `SPI_CloseTransmission`: TXEIE cleared, no buffer, length 0, READY. */
    method CloseTransmission()
      modifies this`txBuf, this`txPos, this`txLen, this`txState, regs`CR2
      ensures Tx() == CloseTx(old(Tx())) && regs.CR2 == ClearBits(old(regs.CR2), CR2_TXEIE)
    {
      regs.CR2 := ClearBits(regs.CR2, CR2_TXEIE);
      txBuf, txPos := [], 0;
      txLen := 0;
      txState := SPI_READY;
    }

    /** `SPI_CloseReception`: RXNEIE cleared, no buffer, length 0, READY. */
    method CloseReception()
      modifies this`rxPos, this`rxLen, this`rxState, regs`CR2
      ensures Rx() == CloseRx(old(Rx())) && regs.CR2 == ClearBits(old(regs.CR2), CR2_RXNEIE)
    {
      regs.CR2 := ClearBits(regs.CR2, CR2_RXNEIE);
      rxPos := 0;
      rxLen := 0;
      rxState := SPI_READY;
    }

    /** `spi_txe_interrupt_handle`. */
    method TxeInterrupt()
      modifies this`txBuf, this`txPos, this`txLen, this`txState, this`trace, regs`DR, regs`CR2
      ensures Tx() == TxeStep(old(Tx()), Sixteen())
      ensures trace == old(trace) + TxeEvents(old(Tx()), Sixteen())
      ensures regs.CR2 == if Sub32(old(txLen), FrameLen(Sixteen())) == 0 then ClearBits(old(regs.CR2), CR2_TXEIE) else old(regs.CR2)
    {
      var v: uint16;
      if regs.CR1 & CR1_DFF != 0 {
        v := Word(txBuf, txPos);
        txLen := Sub32(txLen, 2);
      } else {
        v := ByteAt(txBuf, txPos);
        txLen := Sub32(txLen, 1);
      }
      regs.DR := v;
      trace := trace + [WriteDR(v)];
      txPos := txPos + 1;
      if txLen == 0 {
        CloseTransmission();
        trace := trace + [Callback(SPI_EVENT_TX_CMPLT)];
      }
    }

    /** `spi_rxne_interrupt_handle`; `dr` is the value read from DR. */
    method RxneInterrupt(dr: uint16)
      modifies this`rxBuf, this`rxPos, this`rxLen, this`rxState, this`trace, regs`CR2
      ensures Rx() == RxneStep(old(Rx()), dr, Sixteen())
      ensures trace == old(trace) + [ReadDR(dr)]
        + (if Sub32(old(rxLen), FrameLen(Sixteen())) == 0 then [Callback(SPI_EVENT_RX_CMPLT)] else [])
      ensures regs.CR2 == if Sub32(old(rxLen), FrameLen(Sixteen())) == 0 then ClearBits(old(regs.CR2), CR2_RXNEIE) else old(regs.CR2)
    {
      trace := trace + [ReadDR(dr)];
      if regs.CR1 & CR1_DFF != 0 {
        rxBuf := Put(Put(rxBuf, rxPos, dr % 256), rxPos + 1, dr / 256);
        rxLen := Sub32(rxLen, 2);
      } else {
        rxBuf := Put(rxBuf, rxPos, dr % 256);
        rxLen := Sub32(rxLen, 1);
      }
      rxPos := rxPos + 1;
      if rxLen == 0 {
        CloseReception();
        trace := trace + [Callback(SPI_EVENT_RX_CMPLT)];
      }
    }

    /** `spi_err_interrupt_handle`: the OVR clear sequence unless transmitting, then `OVR_ERR`. */
    method OvrInterrupt(dr: uint16)
      modifies this`trace
      ensures trace == old(trace) + OvrEvents(txState, dr)
    {
      if txState != SPI_BUSY_IN_TX {
        trace := trace + [ReadDR(dr), ReadSR];
      }
      trace := trace + [Callback(SPI_EVENT_OVR_ERR)];
    }

    /** `SPI_ClearOVRFlag`: a DR read then an SR read. */
    method ClearOvrFlag(dr: uint16)
      modifies this`trace
      ensures trace == old(trace) + [ReadDR(dr), ReadSR]
    {
      trace := trace + [ReadDR(dr)];
      trace := trace + [ReadSR];
    }

    /**
     * `SPI_IRQHandling`: TXE, then RXNE, then OVR, each when its flag and
     * its enable bit are both set, with the enable bits read as the previous
     * handler left CR2. `rxDr` and `ovrDr` are the values the handlers read
     * from DR.
     */
    method IrqHandling(rxDr: uint16, ovrDr: uint16)
      modifies this`txBuf, this`txPos, this`txLen, this`txState, this`rxBuf, this`rxPos, this`rxLen, this`rxState, this`trace
      modifies regs`DR, regs`CR2
      ensures var txe := TxeRaised(regs.SR, old(regs.CR2));
        var rxne := RxneRaised(regs.SR, old(regs.CR2));
        var ovr := OvrRaised(regs.SR, old(regs.CR2));
        Tx() == (if txe then TxeStep(old(Tx()), Sixteen()) else old(Tx()))
        && Rx() == (if rxne then RxneStep(old(Rx()), rxDr, Sixteen()) else old(Rx()))
        && trace == old(trace) + (if txe then TxeEvents(old(Tx()), Sixteen()) else [])
             + (if rxne then RxneEvents(old(Rx()), rxDr, Sixteen()) else [])
             + (if ovr then OvrEvents(Tx().state, ovrDr) else [])
    {
      ghost var cr20, tr0, tx0, rx0 := regs.CR2, trace, Tx(), Rx();
      ghost var txe, rxne := TxeRaised(regs.SR, cr20), RxneRaised(regs.SR, cr20);
      var temp1 := regs.SR & SR_TXE != 0;
      var temp2 := regs.CR2 & CR2_TXEIE != 0;
      if temp1 && temp2 {
        TxeInterrupt();
      }
      ghost var cr21, tr1 := regs.CR2, trace;
      assert Tx() == (if txe then TxeStep(tx0, Sixteen()) else tx0);
      assert tr1 == tr0 + (if txe then TxeEvents(tx0, Sixteen()) else []);
      TxeKeepsEnables(cr20, cr21);
      temp1 := regs.SR & SR_RXNE != 0;
      temp2 := regs.CR2 & CR2_RXNEIE != 0;
      assert (temp1 && temp2) == rxne;
      if temp1 && temp2 {
        RxneInterrupt(rxDr);
      }
      ghost var tr2 := trace;
      assert tr2 == tr1 + (if rxne then RxneEvents(rx0, rxDr, Sixteen()) else []);
      assert Rx() == (if rxne then RxneStep(rx0, rxDr, Sixteen()) else rx0);
      RxneKeepsErrie(cr21, regs.CR2);
      temp1 := regs.SR & SR_OVR != 0;
      temp2 := regs.CR2 & CR2_ERRIE != 0;
      if temp1 && temp2 {
        OvrInterrupt(ovrDr);
      }
    }
  }

  predicate TxeRaised(sr: bv32, cr2: bv32)
  {
    sr & SR_TXE != 0 && cr2 & CR2_TXEIE != 0
  }

  predicate RxneRaised(sr: bv32, cr2: bv32)
  {
    sr & SR_RXNE != 0 && cr2 & CR2_RXNEIE != 0
  }

  predicate OvrRaised(sr: bv32, cr2: bv32)
  {
    sr & SR_OVR != 0 && cr2 & CR2_ERRIE != 0
  }

  /** The events of one RXNE interrupt. */
  function RxneEvents(rx: RxState, dr: uint16, sixteen: bool): seq<Event>
  {
    [ReadDR(dr)] + (if Sub32(rx.len, FrameLen(sixteen)) == 0 then [Callback(SPI_EVENT_RX_CMPLT)] else [])
  }

  /** The events of the OVR handler for the transmit state it sees. */
  function OvrEvents(txState: byte, dr: uint16): seq<Event>
  {
    (if txState != SPI_BUSY_IN_TX then [ReadDR(dr), ReadSR] else []) + [Callback(SPI_EVENT_OVR_ERR)]
  }

  /** The OVR handler always reports the error, and clears OVR only outside a transmission. */
  lemma OvrAlwaysReported(txState: byte, dr: uint16)
    ensures OvrEvents(txState, dr)[|OvrEvents(txState, dr)| - 1] == Callback(SPI_EVENT_OVR_ERR)
    ensures ReadSR in OvrEvents(txState, dr) <==> txState != SPI_BUSY_IN_TX
  {
    if txState == SPI_BUSY_IN_TX {
      assert OvrEvents(txState, dr) == [Callback(SPI_EVENT_OVR_ERR)];
    } else {
      assert OvrEvents(txState, dr) == [ReadDR(dr), ReadSR, Callback(SPI_EVENT_OVR_ERR)];
    }
  }

  /** Clearing TXEIE leaves RXNEIE and ERRIE. */
  lemma TxeKeepsEnables(cr0: bv32, cr1: bv32)
    requires cr1 == cr0 || cr1 == ClearBits(cr0, CR2_TXEIE)
    ensures (cr1 & CR2_RXNEIE != 0 <==> cr0 & CR2_RXNEIE != 0) && (cr1 & CR2_ERRIE != 0 <==> cr0 & CR2_ERRIE != 0)
  {
    if cr1 != cr0 {
      DisjointMasks(cr0, CR2_TXEIE, CR2_RXNEIE);
      DisjointMasks(cr0, CR2_TXEIE, CR2_ERRIE);
    }
  }

  /** Clearing RXNEIE leaves ERRIE. */
  lemma RxneKeepsErrie(cr0: bv32, cr1: bv32)
    requires cr1 == cr0 || cr1 == ClearBits(cr0, CR2_RXNEIE)
    ensures cr1 & CR2_ERRIE != 0 <==> cr0 & CR2_ERRIE != 0
  {
    if cr1 != cr0 {
      DisjointMasks(cr0, CR2_RXNEIE, CR2_ERRIE);
    }
  }
}
