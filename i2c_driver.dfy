/**
 * Register-level model of the STM32F407 I2C driver: the timing arithmetic
 * of I2C_Init, the blocking master transfers and the interrupt-driven
 * transfer state machine.
 *
 * Registers are `bv32` fields of `I2cRegs`; the driver handle is `I2cHandle`.
 * Every bus-level primitive (START, address byte, ACK control, ADDR clear,
 * DR access, STOP, application callback) appends one `BusEvent` to the
 * handle's ghost `trace`.  A busy-wait on a status flag becomes one
 * `Await(flag)` event: the flag is taken to be observed after finite time.
 */
module I2cDriver {
  import opened Bits
  import opened Seqs

  // ---------------------------------------------------------------------
  // Register bits (masks built from the bit positions of the driver header)
  // ---------------------------------------------------------------------

  const CR1_PE: bv32 := 1 << 0
  const CR1_START: bv32 := 1 << 8
  const CR1_STOP: bv32 := 1 << 9
  const CR1_ACK: bv32 := 1 << 10

  const CR2_ITERREN: bv32 := 1 << 8
  const CR2_ITEVTEN: bv32 := 1 << 9
  const CR2_ITBUFEN: bv32 := 1 << 10

  const SR1_SB: bv32 := 1 << 0
  const SR1_ADDR: bv32 := 1 << 1
  const SR1_BTF: bv32 := 1 << 2
  const SR1_ADD10: bv32 := 1 << 3
  const SR1_STOPF: bv32 := 1 << 4
  const SR1_RXNE: bv32 := 1 << 6
  const SR1_TXE: bv32 := 1 << 7
  const SR1_BERR: bv32 := 1 << 8
  const SR1_ARLO: bv32 := 1 << 9
  const SR1_AF: bv32 := 1 << 10
  const SR1_OVR: bv32 := 1 << 11
  const SR1_TIMEOUT: bv32 := 1 << 14

  const SR2_MSL: bv32 := 1 << 0
  const SR2_TRA: bv32 := 1 << 2

  const CCR_FS: bv32 := 1 << 15
  const CCR_DUTY_POS: bv32 := 14
  const OAR1_ADD71_POS: bv32 := 1

  // ---------------------------------------------------------------------
  // Configuration values, application states and event codes
  // ---------------------------------------------------------------------

  const SCL_SPEED_SM: bv32 := 100000
  const SCL_SPEED_FM2K: bv32 := 200000
  const SCL_SPEED_FM4K: bv32 := 400000

  const ACK_DISABLE: bv8 := 0
  const ACK_ENABLE: bv8 := 1
  const FM_DUTY_CYCLE2: bv8 := 0
  const FM_DUTY_CYCLE16_9: bv8 := 1

  /** `STOP` argument: 0 ends the transfer with STOP, 1 keeps the bus for a repeated START. */
  const I2C_STOP: nat := 0
  const I2C_REPETITIVE_START: nat := 1

  const READY: nat := 0
  const BUSY_IN_TX: nat := 1
  const BUSY_IN_RX: nat := 2

  const EV_TX_CMPLT: nat := 0
  const EV_RX_CMPLT: nat := 1
  const EV_STOP: nat := 2
  const EV_DATA_REQ: nat := 3
  const EV_DATA_RCV: nat := 4
  const ERROR_BERR: nat := 10
  const ERROR_ARLO: nat := 11
  const ERROR_AF: nat := 12
  const ERROR_OVR: nat := 13
  const ERROR_TIMEOUT: nat := 14

  const U32_LIMIT: nat := 0x1_0000_0000

  // ---------------------------------------------------------------------
  // Address phase
  // ---------------------------------------------------------------------

  /** Address byte of a write: the 7-bit address shifted left within 8 bits, R/W bit 0. */
  function AddressPhaseWrite(slave: byte): (b: byte)
    ensures b % 2 == 0
    ensures b / 2 == slave % 0x80
  {
    (slave * 2) % 0x100
  }

  /** Address byte of a read: the 7-bit address shifted left within 8 bits, R/W bit 1. */
  function AddressPhaseRead(slave: byte): (b: byte)
    ensures b % 2 == 1
    ensures b / 2 == slave % 0x80
  {
    (slave * 2) % 0x100 + 1
  }

  // ---------------------------------------------------------------------
  // I2C_Init timing arithmetic (all uint32 arithmetic is bv32 arithmetic)
  // ---------------------------------------------------------------------

  /** CR1 as I2C_Init writes it: only the ACK bit, from the configuration. */
  function Cr1InitRegister(ackControl: bv8): (r: bv32)
    ensures (r & CR1_ACK != 0) <==> ackControl & 1 != 0
    ensures r & CR1_PE == 0 && r & CR1_START == 0 && r & CR1_STOP == 0
  {
    (ackControl as bv32) << 10
  }

  /** FREQ field of CR2: PCLK1 in MHz, kept to 6 bits. */
  function FreqField(pclk1: bv32): (r: bv32)
    ensures r <= 0x3F
    ensures r == (pclk1 / 1000000) % 64
  {
    (pclk1 / 1000000) & 0x3F
  }

  /** Divisor of the CCR computation, with the 32-bit wrap of `3 * speed` and `25 * speed`. */
  function CcrDivisor(speed: bv32, duty: bv8): bv32
  {
    if speed <= SCL_SPEED_SM then 2 * speed
    else if duty == FM_DUTY_CYCLE2 then 3 * speed
    else 25 * speed
  }

  /**
   * CCR register value: `ccr_val` is held in a uint16 and masked to 12 bits;
   * fast mode also sets FS and ORs the duty-cycle value in at bit 14.
   */
  function CcrRegister(pclk1: bv32, speed: bv32, duty: bv8): (ccr: bv32)
    requires CcrDivisor(speed, duty) != 0
    ensures ccr & 0xFFF == (pclk1 / CcrDivisor(speed, duty)) & 0xFFF
    ensures ccr & 0x3000 == 0
    ensures (ccr & CCR_FS != 0) <==> speed > SCL_SPEED_SM
    ensures speed <= SCL_SPEED_SM ==> ccr <= 0xFFF
    ensures speed > SCL_SPEED_SM ==> (ccr & (1 << 14) != 0 <==> duty & 1 != 0)
  {
    var ccrVal: bv32 := (pclk1 / CcrDivisor(speed, duty)) & 0xFFFF;
    if speed <= SCL_SPEED_SM then ccrVal & 0xFFF
    else CCR_FS | ((duty as bv32) << CCR_DUTY_POS) | (ccrVal & 0xFFF)
  }

  /**
   * TRISE register value: the maximum rise time in PCLK1 cycles plus one
   * (1000 ns in standard mode, 300 ns in fast mode), kept to 6 bits.
   */
  function TriseRegister(pclk1: bv32, speed: bv32): (t: bv32)
    ensures t <= 0x3F
    ensures t == RiseTicks(pclk1, speed) % 64
  {
    RiseTicks(pclk1, speed) & 0x3F
  }

  /** PCLK1/1 MHz + 1, or PCLK1*300/1e9 + 1 where the product wraps in 32 bits. */
  function RiseTicks(pclk1: bv32, speed: bv32): bv32
  {
    if speed <= SCL_SPEED_SM then pclk1 / 1000000 + 1 else (pclk1 * 300) / 1000000000 + 1
  }

  /** OAR1: own address at bit 1, and bit 14, which the reference manual says software keeps at 1. */
  function Oar1Register(deviceAddress: bv8): (r: bv32)
    ensures r & (1 << 14) != 0
    ensures (r >> 1) & 0xFF == deviceAddress as bv32
    ensures r & 1 == 0
  {
    ((deviceAddress as bv32) << OAR1_ADD71_POS) | (1 << 14)
  }

  /** 16 MHz PCLK1 at 100 kHz: CCR = 80, TRISE = 17, FREQ = 16. */
  lemma StandardModeAt16MHz()
    ensures CcrRegister(16000000, SCL_SPEED_SM, FM_DUTY_CYCLE2) == 80
    ensures TriseRegister(16000000, SCL_SPEED_SM) == 17
    ensures FreqField(16000000) == 16
  {
  }

  /**
   * 16 MHz PCLK1 in fast mode: 16e6 * 300 exceeds 2^32 and wraps to 505032704,
   * so TRISE is 1 instead of the 5 the 300 ns rule gives.
   */
  lemma FastModeTriseWrapsAt16MHz()
    ensures TriseRegister(16000000, SCL_SPEED_FM4K) == 1
    ensures (16000000 * 300) / 1000000000 + 1 == 5
  {
  }

  /** 16 MHz PCLK1 at 400 kHz: CCR = FS | 13 with duty 2, FS | DUTY | 1 with duty 16/9. */
  lemma FastModeCcrAt16MHz()
    ensures CcrRegister(16000000, SCL_SPEED_FM4K, FM_DUTY_CYCLE2) == CCR_FS | 13
    ensures CcrRegister(16000000, SCL_SPEED_FM4K, FM_DUTY_CYCLE16_9) == CCR_FS | (1 << 14) | 1
  {
  }

  // ---------------------------------------------------------------------
  // Bus events
  // ---------------------------------------------------------------------

  datatype Flag = SB | ADDR | BTF | TXE | RXNE

  datatype BusEvent =
    | Start
    | Stop
    | AddrByte(b: byte)
    | AckOff
    | AckOn
    | ClearAddr          // SR1 read followed by SR2 read
    | WriteDR(b: byte)
    | ReadDR(b: byte)
    | Await(flag: Flag)  // a busy-wait that ends once the flag is set
    | Callback(code: nat)
    | Cr1Load(v: bv32)   // I2C_Init writes the whole of CR1
    | SetPE(on: bool)    // I2C_PeripheralControl
    | ClearStop          // the STOP bit cleared before an interrupt-driven transfer

  /** The CR1 bits an event sets: START, STOP, ACK or PE. */
  function SetMask(e: BusEvent): bv32
  {
    match e
    case Start => CR1_START
    case Stop => CR1_STOP
    case AckOn => CR1_ACK
    case SetPE(on) => if on then CR1_PE else 0
    case _ => 0
  }

  /** The CR1 bits an event clears: ACK, PE or STOP. */
  function ClearMask(e: BusEvent): bv32
  {
    match e
    case AckOff => CR1_ACK
    case SetPE(on) => if on then 0 else CR1_PE
    case ClearStop => CR1_STOP
    case _ => 0
  }

  /** How one event changes CR1: a whole-register load, or a read-modify-write of its masks. */
  function Cr1Step(cr1: bv32, e: BusEvent): bv32
  {
    if e.Cr1Load? then e.v else (cr1 & !ClearMask(e)) | SetMask(e)
  }

  // The read-modify-write form of each CR1 event, one fact per lemma.

  lemma StartStep(cr1: bv32)
    ensures Cr1Step(cr1, Start) == SetBits(cr1, CR1_START)
  {
  }

  lemma StopStep(cr1: bv32)
    ensures Cr1Step(cr1, Stop) == SetBits(cr1, CR1_STOP)
  {
  }

  lemma AckOnStep(cr1: bv32)
    ensures Cr1Step(cr1, AckOn) == SetBits(cr1, CR1_ACK)
  {
  }

  lemma AckOffClears(cr1: bv32)
    ensures Cr1Step(cr1, AckOff) == ClearBits(cr1, CR1_ACK)
  {
  }

  lemma ClearStopStep(cr1: bv32)
    ensures Cr1Step(cr1, ClearStop) == ClearBits(cr1, CR1_STOP)
  {
  }

  lemma PESetStep(cr1: bv32)
    ensures Cr1Step(cr1, SetPE(true)) == SetBits(cr1, CR1_PE)
  {
  }

  lemma PEClearStep(cr1: bv32)
    ensures Cr1Step(cr1, SetPE(false)) == ClearBits(cr1, CR1_PE)
  {
  }

  lemma NeutralStep(cr1: bv32, e: BusEvent)
    requires Cr1Neutral(e)
    ensures Cr1Step(cr1, e) == cr1
  {
  }

  /** CR1 after a sequence of events. */
  function Cr1After(cr1: bv32, t: seq<BusEvent>): bv32
    decreases |t|
  {
    if t == [] then cr1 else Cr1Step(Cr1After(cr1, t[..|t| - 1]), t[|t| - 1])
  }

  lemma {:induction false} Cr1AfterConcat(cr1: bv32, a: seq<BusEvent>, b: seq<BusEvent>)
    ensures Cr1After(cr1, a + b) == Cr1After(Cr1After(cr1, a), b)
    decreases |b|
  {
    if b == [] {
      assert a + b == a;
    } else {
      var b' := b[..|b| - 1];
      assert (a + b)[..|a + b| - 1] == a + b';
      Cr1AfterConcat(cr1, a, b');
    }
  }

  /** One more event is one more step. */
  lemma Cr1AfterSnoc(cr1: bv32, t: seq<BusEvent>, e: BusEvent)
    ensures Cr1After(cr1, t + [e]) == Cr1Step(Cr1After(cr1, t), e)
  {
    assert (t + [e])[..|t|] == t;
  }

  lemma Cr1AfterSingle(cr1: bv32, e: BusEvent)
    ensures Cr1After(cr1, [e]) == Cr1Step(cr1, e)
  {
    assert [e][..0] == [];
  }

  /** Events that never show up in CR1. */
  predicate Cr1Neutral(e: BusEvent)
  {
    !(e.Start? || e.Stop? || e.AckOn? || e.AckOff? || e.Cr1Load? || e.SetPE? || e.ClearStop?)
  }

  /** Events that cannot set the ACK bit. */
  predicate KeepsAckOff(e: BusEvent)
  {
    e != AckOn && !e.Cr1Load?
  }

  /** One event that cannot set ACK leaves a clear ACK bit clear. */
  lemma AckOffStep(cr1: bv32, e: BusEvent)
    requires cr1 & CR1_ACK == 0 && KeepsAckOff(e)
    ensures Cr1Step(cr1, e) & CR1_ACK == 0
  {
  }

  /** No event of `t` can set ACK. */
  ghost predicate NoAckOn(t: seq<BusEvent>)
  {
    forall i :: 0 <= i < |t| ==> KeepsAckOff(t[i])
  }

  lemma NoAckOnConcat(a: seq<BusEvent>, b: seq<BusEvent>)
    requires NoAckOn(a) && NoAckOn(b)
    ensures NoAckOn(a + b)
  {
    forall i | 0 <= i < |a + b| ensures KeepsAckOff((a + b)[i]) {
      if i < |a| {
        assert (a + b)[i] == a[i];
      } else {
        assert (a + b)[i] == b[i - |a|];
      }
    }
  }

  /** Once ACK is off, it stays off until an `AckOn` (or a whole-register load). */
  lemma {:induction false} AckStaysOff(cr1: bv32, t: seq<BusEvent>)
    requires cr1 & CR1_ACK == 0
    requires NoAckOn(t)
    ensures Cr1After(cr1, t) & CR1_ACK == 0
    decreases |t|
  {
    if t != [] {
      var init := t[..|t| - 1];
      assert NoAckOn(init) by {
        forall i | 0 <= i < |init| ensures KeepsAckOff(init[i]) {
          assert init[i] == t[i];
        }
      }
      AckStaysOff(cr1, init);
      AckOffStep(Cr1After(cr1, init), t[|t| - 1]);
    }
  }

  /** An `AckOff` followed only by events that cannot set ACK leaves ACK off. */
  lemma AckOffThen(cr1: bv32, p: seq<BusEvent>, s: seq<BusEvent>)
    requires NoAckOn(s)
    ensures Cr1After(cr1, p + [AckOff] + s) & CR1_ACK == 0
  {
    Cr1AfterConcat(cr1, p + [AckOff], s);
    Cr1AfterSnoc(cr1, p, AckOff);
    AckOffClears(Cr1After(cr1, p));
    AckStaysOff(Cr1After(cr1, p + [AckOff]), s);
  }

  // ---------------------------------------------------------------------
  // Traces of the blocking transfers
  // ---------------------------------------------------------------------

  /** Whether I2C_ClearADDRFlag disables ACK before clearing ADDR (master receiving one byte). */
  predicate ClearAddrDisablesAck(master: bool, state: nat, rxSize: nat)
  {
    master && state == BUSY_IN_RX && rxSize == 1
  }

  /** Events of I2C_ClearADDRFlag, from SR2.MSL, the handle state and RxSize. */
  function ClearAddrSteps(master: bool, state: nat, rxSize: nat): (t: seq<BusEvent>)
    ensures t == [] || t == [ClearAddr] || t == [AckOff, ClearAddr]
    ensures t == [] <==> master && state == BUSY_IN_RX && rxSize != 1
    ensures (AckOff in t) <==> ClearAddrDisablesAck(master, state, rxSize)
  {
    if master then
      if state == BUSY_IN_RX then
        if rxSize == 1 then [AckOff, ClearAddr] else []
      else [ClearAddr]
    else [ClearAddr]
  }

  /** One `Await(TXE)`, `WriteDR(b)` pair per data byte, in buffer order. */
  function WriteSteps(data: seq<byte>): seq<BusEvent>
    decreases |data|
  {
    if data == [] then []
    else WriteSteps(data[..|data| - 1]) + [Await(TXE), WriteDR(data[|data| - 1])]
  }

  function StopIf(stop: bool): seq<BusEvent>
  {
    if stop then [Stop] else []
  }

  function AckOnIf(enable: bool): seq<BusEvent>
  {
    if enable then [AckOn] else []
  }

  function AckOffIf(disable: bool): seq<BusEvent>
  {
    if disable then [AckOff] else []
  }

  function SendHead(slave: byte): seq<BusEvent>
  {
    [Start, Await(SB), AddrByte(AddressPhaseWrite(slave)), Await(ADDR)]
  }

  /** Trace of I2C_MasterSendData. */
  function SendSteps(slave: byte, data: seq<byte>, clear: seq<BusEvent>, stop: bool): seq<BusEvent>
  {
    SendHead(slave) + clear + WriteSteps(data) + [Await(TXE), Await(BTF)] + StopIf(stop)
  }

  /** One iteration (`i` bytes remaining) of the multi-byte receive loop. */
  function ReadIteration(i: nat, b: byte, stop: bool): seq<BusEvent>
  {
    [Await(RXNE)] + AckOffIf(i == 2) + StopIf(i == 1 && stop) + [ReadDR(b)]
  }

  /** The multi-byte receive loop, counting `|bytes|` down to 1. */
  function ReadLoop(bytes: seq<byte>, stop: bool): seq<BusEvent>
    decreases |bytes|
  {
    if bytes == [] then [] else ReadIteration(|bytes|, bytes[0], stop) + ReadLoop(bytes[1..], stop)
  }

  function ReceiveHead(slave: byte): seq<BusEvent>
  {
    [Start, Await(SB), AddrByte(AddressPhaseRead(slave)), Await(ADDR)]
  }

  /** The single-byte receive: ACK off before ADDR is cleared, STOP before the read. */
  function ReceiveOne(b: byte, clear: seq<BusEvent>, stop: bool): seq<BusEvent>
  {
    [AckOff] + clear + [Await(RXNE)] + StopIf(stop) + [ReadDR(b)]
  }

  /** The data phase of I2C_MasterReceiveData, by length. */
  function ReceiveBody(bytes: seq<byte>, clear: seq<BusEvent>, stop: bool): seq<BusEvent>
  {
    if |bytes| == 1 then ReceiveOne(bytes[0], clear, stop)
    else if |bytes| > 1 then clear + ReadLoop(bytes, stop)
    else []
  }

  /** Trace of I2C_MasterReceiveData for the bytes the slave returns. */
  function ReceiveSteps(slave: byte, bytes: seq<byte>, clear: seq<BusEvent>, stop: bool, ackEnable: bool): seq<BusEvent>
  {
    ReceiveHead(slave) + ReceiveBody(bytes, clear, stop) + AckOnIf(ackEnable)
  }

  // Projections used to state what a trace carries.

  /** Bytes written to DR, in order. */
  function Written(t: seq<BusEvent>): seq<byte>
    decreases |t|
  {
    if t == [] then [] else (if t[0].WriteDR? then [t[0].b] else []) + Written(t[1..])
  }

  /** Bytes read from DR, in order. */
  function ReadBack(t: seq<BusEvent>): seq<byte>
    decreases |t|
  {
    if t == [] then [] else (if t[0].ReadDR? then [t[0].b] else []) + ReadBack(t[1..])
  }

  /** Events that move no data byte. */
  predicate NoData(t: seq<BusEvent>)
  {
    forall i :: 0 <= i < |t| ==> !t[i].WriteDR? && !t[i].ReadDR?
  }

  /** `Await(RXNE)`, `ReadDR(b)` per byte, without ACK or STOP control. */
  function PlainReads(bytes: seq<byte>): seq<BusEvent>
    decreases |bytes|
  {
    if bytes == [] then [] else [Await(RXNE), ReadDR(bytes[0])] + PlainReads(bytes[1..])
  }

  lemma {:induction false} WrittenConcat(a: seq<BusEvent>, b: seq<BusEvent>)
    ensures Written(a + b) == Written(a) + Written(b)
    decreases |a|
  {
    if a == [] {
      assert a + b == b;
    } else {
      assert (a + b)[0] == a[0];
      assert (a + b)[1..] == a[1..] + b;
      WrittenConcat(a[1..], b);
    }
  }

  lemma {:induction false} ReadBackConcat(a: seq<BusEvent>, b: seq<BusEvent>)
    ensures ReadBack(a + b) == ReadBack(a) + ReadBack(b)
    decreases |a|
  {
    if a == [] {
      assert a + b == b;
    } else {
      assert (a + b)[0] == a[0];
      assert (a + b)[1..] == a[1..] + b;
      ReadBackConcat(a[1..], b);
    }
  }

  lemma {:induction false} NoDataProjections(t: seq<BusEvent>)
    requires NoData(t)
    ensures Written(t) == [] && ReadBack(t) == []
    decreases |t|
  {
    if t != [] {
      NoDataProjections(t[1..]);
    }
  }

  lemma ClearNoData(clear: seq<BusEvent>)
    requires clear == [] || clear == [ClearAddr] || clear == [AckOff, ClearAddr]
    ensures Written(clear) == [] && ReadBack(clear) == []
  {
    NoDataProjections(clear);
  }

  lemma HeadsNoData(slave: byte)
    ensures Written(SendHead(slave)) == [] && ReadBack(ReceiveHead(slave)) == []
  {
    NoDataProjections(SendHead(slave));
    NoDataProjections(ReceiveHead(slave));
  }

  lemma ControlNoData(stop: bool, ack: bool)
    ensures Written([Await(TXE), Await(BTF)]) == [] && Written(StopIf(stop)) == []
    ensures ReadBack(AckOnIf(ack)) == []
  {
    NoDataProjections([Await(TXE), Await(BTF)]);
    NoDataProjections(StopIf(stop));
    NoDataProjections(AckOnIf(ack));
  }

  lemma WrittenSingle(e: BusEvent)
    ensures Written([e]) == if e.WriteDR? then [e.b] else []
    ensures ReadBack([e]) == if e.ReadDR? then [e.b] else []
  {
    assert [e][1..] == [];
  }

  lemma WrittenPair(b: byte)
    ensures Written([Await(TXE), WriteDR(b)]) == [b]
  {
    WrittenConcat([Await(TXE)], [WriteDR(b)]);
    assert [Await(TXE)] + [WriteDR(b)] == [Await(TXE), WriteDR(b)];
    WrittenSingle(Await(TXE));
    WrittenSingle(WriteDR(b));
  }

  /** The DR writes of the data phase are exactly the buffer, in order. */
  lemma {:induction false} WriteStepsCarryData(data: seq<byte>)
    ensures Written(WriteSteps(data)) == data
    decreases |data|
  {
    if data != [] {
      var init := data[..|data| - 1];
      var last := data[|data| - 1];
      WriteStepsCarryData(init);
      WrittenConcat(WriteSteps(init), [Await(TXE), WriteDR(last)]);
      WrittenPair(last);
      assert init + [last] == data;
    }
  }

  /** Every DR write of the data phase directly follows a wait for TXE. */
  lemma {:induction false} WriteStepsAwaitTxe(data: seq<byte>, k: nat)
    requires k < |WriteSteps(data)| && WriteSteps(data)[k].WriteDR?
    ensures k > 0 && WriteSteps(data)[k - 1] == Await(TXE)
    decreases |data|
  {
    var init := data[..|data| - 1];
    var w := WriteSteps(init);
    if k < |w| {
      WriteStepsAwaitTxe(init, k);
    }
  }

  lemma {:induction false} WriteStepsNeutral(data: seq<byte>)
    ensures forall i :: 0 <= i < |WriteSteps(data)| ==> Cr1Neutral(WriteSteps(data)[i])
    decreases |data|
  {
    if data != [] {
      WriteStepsNeutral(data[..|data| - 1]);
    }
  }

  /** A blocking send puts exactly the buffer on DR. */
  lemma SendCarriesBuffer(slave: byte, data: seq<byte>, clear: seq<BusEvent>, stop: bool)
    requires clear == [] || clear == [ClearAddr] || clear == [AckOff, ClearAddr]
    ensures Written(SendSteps(slave, data, clear, stop)) == data
  {
    var head := SendHead(slave);
    var w := WriteSteps(data);
    var wait := [Await(TXE), Await(BTF)];
    WrittenConcat(head + clear + w + wait, StopIf(stop));
    WrittenConcat(head + clear + w, wait);
    WrittenConcat(head + clear, w);
    WrittenConcat(head, clear);
    WriteStepsCarryData(data);
    HeadsNoData(slave);
    ClearNoData(clear);
    ControlNoData(stop, false);
  }

  /** STOP is generated by a blocking send iff requested, and then as its last event. */
  lemma SendStopsIffRequested(slave: byte, data: seq<byte>, clear: seq<BusEvent>, stop: bool)
    requires clear == [] || clear == [ClearAddr] || clear == [AckOff, ClearAddr]
    ensures (Stop in SendSteps(slave, data, clear, stop)) <==> stop
    ensures stop <==> SendSteps(slave, data, clear, stop)[|SendSteps(slave, data, clear, stop)| - 1] == Stop
  {
    var body := SendHead(slave) + clear + WriteSteps(data) + [Await(TXE), Await(BTF)];
    assert SendSteps(slave, data, clear, stop) == body + StopIf(stop);
    WriteStepsNeutral(data);
    assert Stop !in WriteSteps(data) by {
      forall i | 0 <= i < |WriteSteps(data)| ensures WriteSteps(data)[i] != Stop {
        assert Cr1Neutral(WriteSteps(data)[i]);
      }
    }
    assert Stop !in body;
  }

  /** A blocking send with STOP requested leaves the STOP bit set in CR1. */
  lemma SendRequestsStop(cr1: bv32, slave: byte, data: seq<byte>, clear: seq<BusEvent>)
    ensures Cr1After(cr1, SendSteps(slave, data, clear, true)) & CR1_STOP != 0
  {
    var s := SendSteps(slave, data, clear, true);
    var body := SendHead(slave) + clear + WriteSteps(data) + [Await(TXE), Await(BTF)];
    assert s == body + [Stop];
    Cr1AfterConcat(cr1, body, [Stop]);
    Cr1AfterSingle(Cr1After(cr1, body), Stop);
  }

  /** With more than two bytes left, an iteration neither turns ACK off nor generates STOP. */
  lemma PlainIteration(i: nat, b: byte, stop: bool)
    requires i > 2
    ensures ReadIteration(i, b, stop) == [Await(RXNE), ReadDR(b)]
  {
    assert [Await(RXNE)] + [] + [] + [ReadDR(b)] == [Await(RXNE), ReadDR(b)];
  }

  /** The iterations before the last two read without touching ACK or STOP. */
  lemma {:induction false} ReadLoopSplit(prefix: seq<byte>, a: byte, b: byte, stop: bool)
    ensures ReadLoop(prefix + [a, b], stop) == PlainReads(prefix) + ReadLoop([a, b], stop)
    decreases |prefix|
  {
    if prefix == [] {
      assert prefix + [a, b] == [a, b];
    } else {
      var bytes := prefix + [a, b];
      assert bytes[1..] == prefix[1..] + [a, b];
      assert bytes[0] == prefix[0];
      ReadLoopSplit(prefix[1..], a, b, stop);
      PlainIteration(|bytes|, prefix[0], stop);
      Regroup2(ReadIteration(|bytes|, prefix[0], stop), PlainReads(prefix[1..]), ReadLoop([a, b], stop));
    }
  }

  /** The last two iterations: ACK off before the second-to-last read, STOP before the last. */
  lemma ReadLoopLastTwo(a: byte, b: byte, stop: bool)
    ensures ReadLoop([a, b], stop) == [Await(RXNE), AckOff, ReadDR(a), Await(RXNE)] + StopIf(stop) + [ReadDR(b)]
  {
    assert [a, b][1..] == [b];
    assert [b][1..] == [];
    assert ReadLoop([b], stop) == ReadIteration(1, b, stop) + ReadLoop([], stop);
    assert ReadLoop([a, b], stop) == ReadIteration(2, a, stop) + ReadLoop([b], stop);
  }

  /** The events of an iteration before its DR read. */
  function ReadControl(i: nat, stop: bool): seq<BusEvent>
  {
    [Await(RXNE)] + AckOffIf(i == 2) + StopIf(i == 1 && stop)
  }

  lemma ReadControlNoData(i: nat, stop: bool)
    ensures ReadBack(ReadControl(i, stop)) == []
    ensures NoAckOn(ReadControl(i, stop))
  {
    NoDataProjections(ReadControl(i, stop));
  }

  /** One loop iteration reads exactly its byte and never turns ACK on. */
  lemma ReadIterationCarries(i: nat, b: byte, stop: bool)
    ensures ReadBack(ReadIteration(i, b, stop)) == [b]
    ensures NoAckOn(ReadIteration(i, b, stop))
  {
    ReadControlNoData(i, stop);
    ReadBackConcat(ReadControl(i, stop), [ReadDR(b)]);
    WrittenSingle(ReadDR(b));
    NoAckOnConcat(ReadControl(i, stop), [ReadDR(b)]);
  }

  /** The receive loop reads exactly its bytes, in order. */
  lemma {:induction false} ReadLoopCarries(bytes: seq<byte>, stop: bool)
    ensures ReadBack(ReadLoop(bytes, stop)) == bytes
    decreases |bytes|
  {
    if bytes != [] {
      ReadLoopCarries(bytes[1..], stop);
      ReadIterationCarries(|bytes|, bytes[0], stop);
      ReadBackConcat(ReadIteration(|bytes|, bytes[0], stop), ReadLoop(bytes[1..], stop));
      assert [bytes[0]] + bytes[1..] == bytes;
    }
  }

  /** The single-byte receive reads exactly its byte. */
  lemma ReceiveOneCarries(b: byte, clear: seq<BusEvent>, stop: bool)
    requires clear == [] || clear == [ClearAddr] || clear == [AckOff, ClearAddr]
    ensures ReadBack(ReceiveOne(b, clear, stop)) == [b]
  {
    var pre := [AckOff] + clear + [Await(RXNE)] + StopIf(stop);
    assert ReceiveOne(b, clear, stop) == pre + [ReadDR(b)];
    assert NoData(pre);
    NoDataProjections(pre);
    ReadBackConcat(pre, [ReadDR(b)]);
    WrittenSingle(ReadDR(b));
  }

  /** A blocking receive stores exactly the bytes read from DR, in order. */
  lemma ReceiveCarriesBytes(slave: byte, bytes: seq<byte>, clear: seq<BusEvent>, stop: bool, ackEnable: bool)
    requires clear == [] || clear == [ClearAddr] || clear == [AckOff, ClearAddr]
    ensures ReadBack(ReceiveSteps(slave, bytes, clear, stop, ackEnable)) == bytes
  {
    var head := ReceiveHead(slave);
    var body := ReceiveBody(bytes, clear, stop);
    ReadBackConcat(head + body, AckOnIf(ackEnable));
    ReadBackConcat(head, body);
    HeadsNoData(slave);
    ControlNoData(false, ackEnable);
    assert ReadBack(body) == bytes by {
      if |bytes| == 1 {
        ReceiveOneCarries(bytes[0], clear, stop);
        assert [bytes[0]] == bytes;
      } else if |bytes| > 1 {
        ClearNoData(clear);
        ReadBackConcat(clear, ReadLoop(bytes, stop));
        ReadLoopCarries(bytes, stop);
      }
    }
  }

  /** The receive loop never turns ACK on. */
  lemma {:induction false} ReadLoopNoAckOn(bytes: seq<byte>, stop: bool)
    ensures NoAckOn(ReadLoop(bytes, stop))
    decreases |bytes|
  {
    if bytes != [] {
      ReadLoopNoAckOn(bytes[1..], stop);
      ReadIterationCarries(|bytes|, bytes[0], stop);
      NoAckOnConcat(ReadIteration(|bytes|, bytes[0], stop), ReadLoop(bytes[1..], stop));
    }
  }

  /** Whatever CR1 held before, a receive loop over two or more bytes ends with ACK off. */
  lemma {:induction false} ReadLoopAckOff(cr1: bv32, bytes: seq<byte>, stop: bool)
    requires |bytes| >= 2
    ensures Cr1After(cr1, ReadLoop(bytes, stop)) & CR1_ACK == 0
    decreases |bytes|
  {
    var it := ReadIteration(|bytes|, bytes[0], stop);
    var rest := ReadLoop(bytes[1..], stop);
    if |bytes| == 2 {
      var after := [] + [ReadDR(bytes[0])] + rest;
      ReadLoopNoAckOn(bytes[1..], stop);
      assert NoAckOn(after) by {
        NoAckOnConcat([] + [ReadDR(bytes[0])], rest);
      }
      Regroup3([Await(RXNE)] + [AckOff], [], [ReadDR(bytes[0])], rest);
      AckOffThen(cr1, [Await(RXNE)], after);
    } else {
      Cr1AfterConcat(cr1, it, rest);
      ReadLoopAckOff(Cr1After(cr1, it), bytes[1..], stop);
    }
  }

  /** The single-byte receive leaves ACK off: it is cleared first and never turned back on. */
  lemma ReceiveOneAckOff(c: bv32, b: byte, clear: seq<BusEvent>, stop: bool)
    requires clear == [] || clear == [ClearAddr] || clear == [AckOff, ClearAddr]
    ensures Cr1After(c, ReceiveOne(b, clear, stop)) & CR1_ACK == 0
  {
    var post := clear + [Await(RXNE)] + StopIf(stop) + [ReadDR(b)];
    assert NoAckOn(post) by {
      assert NoAckOn(clear);
      NoAckOnConcat(clear, [Await(RXNE)]);
      NoAckOnConcat(clear + [Await(RXNE)], StopIf(stop));
      NoAckOnConcat(clear + [Await(RXNE)] + StopIf(stop), [ReadDR(b)]);
    }
    Regroup4([AckOff], clear, [Await(RXNE)], StopIf(stop), [ReadDR(b)]);
    AckOffThen(c, [], post);
    assert [] + [AckOff] == [AckOff];
  }

  /** Any data phase that moves at least one byte ends with ACK off. */
  lemma ReceiveBodyAckOff(c: bv32, bytes: seq<byte>, clear: seq<BusEvent>, stop: bool)
    requires clear == [] || clear == [ClearAddr] || clear == [AckOff, ClearAddr]
    requires |bytes| >= 1
    ensures Cr1After(c, ReceiveBody(bytes, clear, stop)) & CR1_ACK == 0
  {
    if |bytes| == 1 {
      ReceiveOneAckOff(c, bytes[0], clear, stop);
    } else {
      Cr1AfterConcat(c, clear, ReadLoop(bytes, stop));
      ReadLoopAckOff(Cr1After(c, clear), bytes, stop);
    }
  }

  /** A blocking receive with ACK enabled in the configuration ends with ACK on. */
  lemma ReceiveRestoresAck(cr1: bv32, slave: byte, bytes: seq<byte>, clear: seq<BusEvent>, stop: bool)
    ensures Cr1After(cr1, ReceiveSteps(slave, bytes, clear, stop, true)) & CR1_ACK != 0
  {
    var pre := ReceiveHead(slave) + ReceiveBody(bytes, clear, stop);
    Cr1AfterConcat(cr1, pre, [AckOn]);
    Cr1AfterSingle(Cr1After(cr1, pre), AckOn);
  }

  /** With ACK disabled in the configuration, a receive of at least one byte ends with ACK off. */
  lemma ReceiveKeepsAckOff(cr1: bv32, slave: byte, bytes: seq<byte>, clear: seq<BusEvent>, stop: bool)
    requires clear == [] || clear == [ClearAddr] || clear == [AckOff, ClearAddr]
    requires |bytes| >= 1
    ensures Cr1After(cr1, ReceiveSteps(slave, bytes, clear, stop, false)) & CR1_ACK == 0
  {
    var head := ReceiveHead(slave);
    var body := ReceiveBody(bytes, clear, stop);
    assert ReceiveSteps(slave, bytes, clear, stop, false) == head + body;
    Cr1AfterConcat(cr1, head, body);
    ReceiveBodyAckOff(Cr1After(cr1, head), bytes, clear, stop);
  }

  // ---------------------------------------------------------------------
  // Traces of the interrupt-driven reception
  // ---------------------------------------------------------------------

  /** The read half of one RXNE interrupt: ACK off for RxSize 1 or with two bytes left, then the DR read. */
  function RxneReadSteps(rxSize: nat, rxLen: nat, b: byte): seq<BusEvent>
  {
    if rxSize == 1 then [AckOff, ReadDR(b)]
    else if rxSize > 1 then AckOffIf(rxLen == 2) + [ReadDR(b)]
    else []
  }

  /** Closing a reception: STOP when requested, ACK restored when configured, then RX_CMPLT. */
  function RxCompleteSteps(stop: bool, ackEnable: bool): seq<BusEvent>
  {
    StopIf(stop) + AckOnIf(ackEnable) + [Callback(EV_RX_CMPLT)]
  }

  /** Whether RxLen is 0 after the read half (RxLen is decremented when RxSize is at least 1). */
  predicate RxneFinishes(rxSize: nat, rxLen: nat)
  {
    if rxSize >= 1 then rxLen == 1 else rxLen == 0
  }

  /** Events of one RXNE interrupt during a master reception. */
  function RxneSteps(rxSize: nat, rxLen: nat, b: byte, stop: bool, ackEnable: bool): seq<BusEvent>
  {
    RxneReadSteps(rxSize, rxLen, b) + (if RxneFinishes(rxSize, rxLen) then RxCompleteSteps(stop, ackEnable) else [])
  }

  // ---------------------------------------------------------------------
  // Event interrupt: what one I2C_EV_IRQHandling call does, as values
  // ---------------------------------------------------------------------

  /** The SR1 event flags I2C_EV_IRQHandling tests. */
  datatype EvFlags = EvFlags(sb: bool, addr: bool, btf: bool, stopf: bool, txe: bool, rxne: bool)

  function FlagsOf(sr1: bv32): (f: EvFlags)
    ensures f.sb <==> sr1 & SR1_SB != 0
    ensures f.txe <==> sr1 & SR1_TXE != 0
    ensures f.rxne <==> sr1 & SR1_RXNE != 0
  {
    EvFlags(sr1 & SR1_SB != 0, sr1 & SR1_ADDR != 0, sr1 & SR1_BTF != 0, sr1 & SR1_STOPF != 0,
            sr1 & SR1_TXE != 0, sr1 & SR1_RXNE != 0)
  }

  /**
   * The part of the handle the event handler reads: the transfer state, the
   * slave address, the byte `pTxBuffer` points at (0 without a buffer), the
   * counts, and the STOP and ACK settings.
   */
  datatype Transfer = Transfer(state: nat, devAddr: byte, txLen: nat, txByte: byte,
                               rxSize: nat, rxLen: nat, stop: bool, ackEnable: bool)

  /** Step 1 (SB): the address byte for the direction of a busy handle. */
  function StartBitSteps(state: nat, devAddr: byte): seq<BusEvent>
  {
    if state == BUSY_IN_TX then [AddrByte(AddressPhaseWrite(devAddr))]
    else if state == BUSY_IN_RX then [AddrByte(AddressPhaseRead(devAddr))]
    else []
  }

  /** DR after step 1: the address byte when one was sent, otherwise as it was. */
  function StartBitDr(state: nat, devAddr: byte, dr: uint32): uint32
  {
    if state == BUSY_IN_TX then AddressPhaseWrite(devAddr)
    else if state == BUSY_IN_RX then AddressPhaseRead(devAddr)
    else dr
  }

  /** Whether step 4 (BTF) ends a transmission: TXE also set, BUSY_IN_TX and nothing left. */
  predicate BtfCloses(f: EvFlags, x: Transfer)
  {
    f.btf && f.txe && x.state == BUSY_IN_TX && x.txLen == 0
  }

  /** Events of steps 1 to 5 (SB, ADDR, ADD10, BTF, STOPF), in the handler's order. */
  function PhaseSteps(f: EvFlags, master: bool, x: Transfer): seq<BusEvent>
  {
    (if f.sb then StartBitSteps(x.state, x.devAddr) else [])
    + (if f.addr then ClearAddrSteps(master, x.state, x.rxSize) else [])
    + (if BtfCloses(f, x) then StopIf(x.stop) + [Callback(EV_TX_CMPLT)] else [])
    + CallbackIf(f.stopf, EV_STOP)
  }

  /** The transfer steps 6 and 7 see: a transmission closed by BTF is READY with no buffer. */
  function AfterPhase(f: EvFlags, x: Transfer): Transfer
  {
    if BtfCloses(f, x) then x.(state := READY, txLen := 0, txByte := 0) else x
  }

  /** DR after steps 1 to 5. */
  function DrAfterPhase(f: EvFlags, x: Transfer, dr: uint32): uint32
  {
    if f.sb then StartBitDr(x.state, x.devAddr, dr) else dr
  }

  /**
   * Events of steps 6 (TXE) and 7 (RXNE), taken with ITBUFEN set: a master
   * sends or receives one byte of its transfer; a slave is asked for data
   * or told it arrived, by SR2.TRA. `b` is the low byte of DR.
   */
  function DataSteps(f: EvFlags, master: bool, transmitter: bool, x: Transfer, b: byte): seq<BusEvent>
  {
    TxeDataSteps(f, master, transmitter, x) + RxneDataSteps(f, master, transmitter, x, b)
  }

  /** Step 6 (TXE): a master transmission writes its next byte; a slave transmitter is asked for data. */
  function TxeDataSteps(f: EvFlags, master: bool, transmitter: bool, x: Transfer): seq<BusEvent>
  {
    if master then (if f.txe && x.state == BUSY_IN_TX && x.txLen > 0 then [WriteDR(x.txByte)] else [])
    else CallbackIf(f.txe && transmitter, EV_DATA_REQ)
  }

  /** Step 7 (RXNE): a master reception reads a byte; a slave receiver is told data arrived. */
  function RxneDataSteps(f: EvFlags, master: bool, transmitter: bool, x: Transfer, b: byte): seq<BusEvent>
  {
    if master then (if f.rxne && x.state == BUSY_IN_RX then RxneSteps(x.rxSize, x.rxLen, b, x.stop, x.ackEnable) else [])
    else CallbackIf(f.rxne && !transmitter, EV_DATA_RCV)
  }

  /** Step 7 reads DR only during a master reception, and sees only the reception's part of the transfer. */
  lemma RxneDataFrame(f: EvFlags, master: bool, transmitter: bool, x: Transfer, y: Transfer, b: byte, c: byte)
    requires x.state == y.state && x.rxSize == y.rxSize && x.rxLen == y.rxLen
    requires x.stop == y.stop && x.ackEnable == y.ackEnable
    requires master && x.state == BUSY_IN_RX ==> b == c
    ensures RxneDataSteps(f, master, transmitter, x, b) == RxneDataSteps(f, master, transmitter, y, c)
  {
  }

  /** Whether step 7 completes a master reception. */
  predicate RxneCloses(f: EvFlags, master: bool, x: Transfer)
  {
    master && f.rxne && x.state == BUSY_IN_RX && RxneFinishes(x.rxSize, x.rxLen)
  }

  /** Events of one I2C_EV_IRQHandling call with ITEVTEN set; steps 6 and 7 see the state steps 1 to 5 leave. */
  function EvSteps(f: EvFlags, master: bool, transmitter: bool, bufferEnabled: bool, x: Transfer, dr: uint32): seq<BusEvent>
  {
    PhaseSteps(f, master, x)
    + (if bufferEnabled then DataSteps(f, master, transmitter, AfterPhase(f, x), LowByte(DrAfterPhase(f, x, dr))) else [])
  }

  /** The transfer state after one I2C_EV_IRQHandling call with ITEVTEN set. */
  function EvState(f: EvFlags, master: bool, bufferEnabled: bool, x: Transfer): nat
  {
    var y := AfterPhase(f, x);
    if bufferEnabled && RxneCloses(f, master, y) then READY else y.state
  }

  /**
   * The interrupt that ends a master transmission (BTF and TXE with TxLen 0)
   * only closes it: STOP if requested, then TX_CMPLT; step 6 then sees a
   * READY handle and writes nothing, whatever the other flags.
   */
  lemma EvCompletesSend(f: EvFlags, transmitter: bool, bufferEnabled: bool, x: Transfer, dr: uint32)
    requires x.state == BUSY_IN_TX && x.txLen == 0 && f.btf && f.txe
    requires !f.sb && !f.addr && !f.stopf
    ensures EvSteps(f, true, transmitter, bufferEnabled, x, dr) == StopIf(x.stop) + [Callback(EV_TX_CMPLT)]
    ensures EvState(f, true, bufferEnabled, x) == READY
  {
    var y := AfterPhase(f, x);
    assert y.state == READY;
    assert DataSteps(f, true, transmitter, y, LowByte(DrAfterPhase(f, x, dr))) == [];
    assert PhaseSteps(f, true, x) == [] + [] + (StopIf(x.stop) + [Callback(EV_TX_CMPLT)]) + [];
  }

  /** While bytes remain, a TXE interrupt of a master transmission writes exactly the next byte, even with BTF set. */
  lemma EvSendsNextByte(f: EvFlags, transmitter: bool, x: Transfer, dr: uint32)
    requires x.state == BUSY_IN_TX && x.txLen > 0 && f.txe
    requires !f.sb && !f.addr && !f.stopf
    ensures EvSteps(f, true, transmitter, true, x, dr) == [WriteDR(x.txByte)]
    ensures EvState(f, true, true, x) == BUSY_IN_TX
  {
    assert !BtfCloses(f, x) && AfterPhase(f, x) == x;
    assert PhaseSteps(f, true, x) == [];
    assert DataSteps(f, true, transmitter, x, LowByte(dr)) == [WriteDR(x.txByte)] + [];
  }

  /**
   * An RXNE interrupt of a master reception with more than two bytes left
   * reads exactly one byte and leaves the reception running; BTF and TXE
   * do nothing while receiving.
   */
  lemma EvReceivesByte(f: EvFlags, transmitter: bool, x: Transfer, dr: uint32)
    requires x.state == BUSY_IN_RX && x.rxSize > 1 && x.rxLen > 2 && f.rxne
    requires !f.sb && !f.addr && !f.stopf
    ensures EvSteps(f, true, transmitter, true, x, dr) == [ReadDR(LowByte(dr))]
    ensures EvState(f, true, true, x) == BUSY_IN_RX
  {
    assert !BtfCloses(f, x) && AfterPhase(f, x) == x;
    assert PhaseSteps(f, true, x) == [];
    assert RxneSteps(x.rxSize, x.rxLen, LowByte(dr), x.stop, x.ackEnable) == [ReadDR(LowByte(dr))];
    assert DataSteps(f, true, transmitter, x, LowByte(dr)) == [] + [ReadDR(LowByte(dr))];
  }

  /** The RXNE interrupt for the last byte of a master reception reads it and closes the reception. */
  lemma EvReceivesLastByte(f: EvFlags, transmitter: bool, x: Transfer, dr: uint32)
    requires x.state == BUSY_IN_RX && x.rxSize > 1 && x.rxLen == 1 && f.rxne
    requires !f.sb && !f.addr && !f.stopf
    ensures EvSteps(f, true, transmitter, true, x, dr)
      == [ReadDR(LowByte(dr))] + RxCompleteSteps(x.stop, x.ackEnable)
    ensures EvState(f, true, true, x) == READY
  {
    assert !BtfCloses(f, x) && AfterPhase(f, x) == x;
    assert PhaseSteps(f, true, x) == [];
    assert DataSteps(f, true, transmitter, x, LowByte(dr)) == [] + RxneSteps(x.rxSize, x.rxLen, LowByte(dr), x.stop, x.ackEnable);
  }

  /** Without ITBUFEN no data byte moves: the handler logs no DR write or read. */
  lemma EvBufferOffMovesNoData(f: EvFlags, master: bool, transmitter: bool, x: Transfer, dr: uint32)
    ensures forall e :: e in EvSteps(f, master, transmitter, false, x, dr) ==> !e.WriteDR? && !e.ReadDR?
  {
    var s1 := if f.sb then StartBitSteps(x.state, x.devAddr) else [];
    var s2 := if f.addr then ClearAddrSteps(master, x.state, x.rxSize) else [];
    var s4 := if BtfCloses(f, x) then StopIf(x.stop) + [Callback(EV_TX_CMPLT)] else [];
    var s5 := CallbackIf(f.stopf, EV_STOP);
    assert EvSteps(f, master, transmitter, false, x, dr) == s1 + s2 + s4 + s5 + [];
  }

  /** A slave is told at most one thing per interrupt: data wanted when transmitting, data arrived when receiving. */
  lemma SlaveDataEvents(f: EvFlags, transmitter: bool, x: Transfer, b: byte)
    ensures transmitter ==> DataSteps(f, false, transmitter, x, b) == CallbackIf(f.txe, EV_DATA_REQ)
    ensures !transmitter ==> DataSteps(f, false, transmitter, x, b) == CallbackIf(f.rxne, EV_DATA_RCV)
  {
  }

  // ---------------------------------------------------------------------
  // Error interrupt: which callbacks I2C_ER_IRQHandling emits
  // ---------------------------------------------------------------------

  const ERROR_FLAGS: bv32 := SR1_BERR | SR1_ARLO | SR1_AF | SR1_OVR | SR1_TIMEOUT

  /** The SR1 flag behind each error code (none for other codes). */
  function ErrorFlag(code: nat): bv32
  {
    if code == ERROR_BERR then SR1_BERR
    else if code == ERROR_ARLO then SR1_ARLO
    else if code == ERROR_AF then SR1_AF
    else if code == ERROR_OVR then SR1_OVR
    else if code == ERROR_TIMEOUT then SR1_TIMEOUT
    else 0
  }

  /** The callback for one error flag, when it is set. */
  function ErrorIf(sr1: bv32, flag: bv32, code: nat): seq<BusEvent>
  {
    CallbackIf(sr1 & flag != 0, code)
  }

  /** Callbacks for the error flags set in SR1, in the handler's order: BERR, ARLO, AF, OVR, TIMEOUT. */
  function ErrorCallbacks(sr1: bv32): seq<BusEvent>
  {
    ErrorIf(sr1, SR1_BERR, ERROR_BERR) + ErrorIf(sr1, SR1_ARLO, ERROR_ARLO) + ErrorIf(sr1, SR1_AF, ERROR_AF)
    + ErrorIf(sr1, SR1_OVR, ERROR_OVR) + ErrorIf(sr1, SR1_TIMEOUT, ERROR_TIMEOUT)
  }

  /** A code is reported iff it is an error code whose flag is set; nothing else is reported. */
  lemma ErrorCallbacksExact(sr1: bv32)
    ensures forall c: nat :: Callback(c) in ErrorCallbacks(sr1) <==> ErrorFlag(c) != 0 && sr1 & ErrorFlag(c) != 0
    ensures forall e :: e in ErrorCallbacks(sr1) ==> e.Callback?
  {
    var b1, b2, b3 := sr1 & SR1_BERR != 0, sr1 & SR1_ARLO != 0, sr1 & SR1_AF != 0;
    var b4, b5 := sr1 & SR1_OVR != 0, sr1 & SR1_TIMEOUT != 0;
    forall c: nat
      ensures Callback(c) in ErrorCallbacks(sr1) <==> ErrorFlag(c) != 0 && sr1 & ErrorFlag(c) != 0
    {
      CallbacksOf(b1, b2, b3, b4, b5, c);
    }
    CallbacksOnly(b1, b2, b3, b4, b5);
  }

  /** `Callback(code)` when `raised` holds. */
  function CallbackIf(raised: bool, code: nat): seq<BusEvent>
  {
    if raised then [Callback(code)] else []
  }

  /** The callbacks five set-or-clear flags give, in the handler's order. */
  function CallbacksFor(b1: bool, b2: bool, b3: bool, b4: bool, b5: bool): seq<BusEvent>
  {
    CallbackIf(b1, ERROR_BERR) + CallbackIf(b2, ERROR_ARLO) + CallbackIf(b3, ERROR_AF)
    + CallbackIf(b4, ERROR_OVR) + CallbackIf(b5, ERROR_TIMEOUT)
  }

  lemma CallbacksOf(b1: bool, b2: bool, b3: bool, b4: bool, b5: bool, c: nat)
    ensures Callback(c) in CallbacksFor(b1, b2, b3, b4, b5) <==>
      (c == ERROR_BERR && b1) || (c == ERROR_ARLO && b2) || (c == ERROR_AF && b3)
      || (c == ERROR_OVR && b4) || (c == ERROR_TIMEOUT && b5)
  {
  }

  lemma CallbacksOnly(b1: bool, b2: bool, b3: bool, b4: bool, b5: bool)
    ensures forall e :: e in CallbacksFor(b1, b2, b3, b4, b5) ==> e.Callback?
  {
  }

  /** Error callbacks whose codes strictly increase along the trace. */
  ghost predicate CodesIncreasing(t: seq<BusEvent>)
  {
    forall i, j :: 0 <= i < j < |t| ==> t[i].Callback? && t[j].Callback? && t[i].code < t[j].code
  }

  /** Appending the callback of a larger code keeps the codes increasing. */
  lemma ExtendIncreasing(t: seq<BusEvent>, sr1: bv32, flag: bv32, code: nat)
    requires CodesIncreasing(t)
    requires forall i :: 0 <= i < |t| ==> t[i].Callback? && t[i].code < code
    ensures CodesIncreasing(t + ErrorIf(sr1, flag, code))
    ensures forall i :: 0 <= i < |t + ErrorIf(sr1, flag, code)| ==>
      (t + ErrorIf(sr1, flag, code))[i].Callback? && (t + ErrorIf(sr1, flag, code))[i].code <= code
  {
  }

  /** The handler reports each error at most once, in increasing code order. */
  lemma ErrorCallbacksOrdered(sr1: bv32)
    ensures CodesIncreasing(ErrorCallbacks(sr1))
  {
    var t1 := ErrorIf(sr1, SR1_BERR, ERROR_BERR);
    var t2 := t1 + ErrorIf(sr1, SR1_ARLO, ERROR_ARLO);
    var t3 := t2 + ErrorIf(sr1, SR1_AF, ERROR_AF);
    var t4 := t3 + ErrorIf(sr1, SR1_OVR, ERROR_OVR);
    ExtendIncreasing(t1, sr1, SR1_ARLO, ERROR_ARLO);
    ExtendIncreasing(t2, sr1, SR1_AF, ERROR_AF);
    ExtendIncreasing(t3, sr1, SR1_OVR, ERROR_OVR);
    ExtendIncreasing(t4, sr1, SR1_TIMEOUT, ERROR_TIMEOUT);
  }

  /** I2C_ER_IRQHandling reports nothing iff no error flag is set. */
  lemma NoErrorCallbacks(sr1: bv32)
    ensures ErrorCallbacks(sr1) == [] <==> sr1 & ERROR_FLAGS == 0
  {
    assert sr1 & ERROR_FLAGS == 0 <==>
      sr1 & SR1_BERR == 0 && sr1 & SR1_ARLO == 0 && sr1 & SR1_AF == 0 && sr1 & SR1_OVR == 0 && sr1 & SR1_TIMEOUT == 0;
  }

  /**
   * The handler's step-by-step clearing: no flag it tests has been touched
   * by the earlier steps, so it reports what SR1 held on entry.
   */
  lemma ErrorPassCallbacks(s0: bv32)
    ensures var s1 := ClearBits(s0, SR1_BERR);
            var s2 := ClearBits(s1, SR1_ARLO);
            var s3 := ClearBits(s2, SR1_AF);
            var s4 := ClearBits(s3, SR1_OVR);
            ErrorCallbacks(s0) == ErrorIf(s0, SR1_BERR, ERROR_BERR) + ErrorIf(s1, SR1_ARLO, ERROR_ARLO)
                                  + ErrorIf(s2, SR1_AF, ERROR_AF) + ErrorIf(s3, SR1_OVR, ERROR_OVR)
                                  + ErrorIf(s4, SR1_TIMEOUT, ERROR_TIMEOUT)
  {
    var s1 := ClearBits(s0, SR1_BERR);
    var s2 := ClearBits(s1, SR1_ARLO);
    var s3 := ClearBits(s2, SR1_AF);
    var s4 := ClearBits(s3, SR1_OVR);
    assert ErrorIf(s1, SR1_ARLO, ERROR_ARLO) == ErrorIf(s0, SR1_ARLO, ERROR_ARLO) by {
      DisjointMasks(s0, SR1_BERR, SR1_ARLO);
    }
    assert ErrorIf(s2, SR1_AF, ERROR_AF) == ErrorIf(s0, SR1_AF, ERROR_AF) by {
      DisjointMasks(s0, SR1_BERR, SR1_AF);
      DisjointMasks(s1, SR1_ARLO, SR1_AF);
    }
    assert ErrorIf(s3, SR1_OVR, ERROR_OVR) == ErrorIf(s0, SR1_OVR, ERROR_OVR) by {
      DisjointMasks(s0, SR1_BERR, SR1_OVR);
      DisjointMasks(s1, SR1_ARLO, SR1_OVR);
      DisjointMasks(s2, SR1_AF, SR1_OVR);
    }
    assert ErrorIf(s4, SR1_TIMEOUT, ERROR_TIMEOUT) == ErrorIf(s0, SR1_TIMEOUT, ERROR_TIMEOUT) by {
      DisjointMasks(s0, SR1_BERR, SR1_TIMEOUT);
      DisjointMasks(s1, SR1_ARLO, SR1_TIMEOUT);
      DisjointMasks(s2, SR1_AF, SR1_TIMEOUT);
      DisjointMasks(s3, SR1_OVR, SR1_TIMEOUT);
    }
  }

  /** After the five steps all error flags are clear and every other SR1 bit is kept. */
  lemma ErrorPassClears(s0: bv32)
    ensures ClearBits(ClearBits(ClearBits(ClearBits(ClearBits(s0, SR1_BERR), SR1_ARLO), SR1_AF), SR1_OVR), SR1_TIMEOUT)
            == ClearBits(s0, ERROR_FLAGS)
  {
    ClearTwice(s0, SR1_BERR, SR1_ARLO);
    ClearTwice(s0, SR1_BERR | SR1_ARLO, SR1_AF);
    ClearTwice(s0, SR1_BERR | SR1_ARLO | SR1_AF, SR1_OVR);
    ClearTwice(s0, SR1_BERR | SR1_ARLO | SR1_AF | SR1_OVR, SR1_TIMEOUT);
  }

  // ---------------------------------------------------------------------
  // Registers and handle
  // ---------------------------------------------------------------------

  /**
   * The register block of one I2C peripheral.  CR1 is absent: the driver only
   * ever writes it, so it is represented by the write history of the handle
   * (`I2cHandle.Cr1`).
   */
  class I2cRegs {
    var CR2: bv32
    var OAR1: bv32
    var OAR2: bv32
    var DR: uint32
    var SR1: bv32
    var SR2: bv32
    var CCR: bv32
    var TRISE: bv32

    constructor ()
      ensures CR2 == 0 && OAR1 == 0 && OAR2 == 0 && DR == 0
      ensures SR1 == 0 && SR2 == 0 && CCR == 0 && TRISE == 0
    {
      CR2, OAR1, OAR2, DR := 0, 0, 0, 0;
      SR1, SR2, CCR, TRISE := 0, 0, 0, 0;
    }
  }

  class I2cHandle {
    var regs: I2cRegs

    // I2C_Config
    var sclSpeed: bv32
    var deviceAddress: bv8
    var ackControl: bv8
    var fmDutyCycle: bv8

    // pTxbuffer == txBuffer + txPos, pRxbuffer == rxBuffer + rxPos (null: no buffer)
    var txBuffer: array?<byte>
    var txPos: nat
    var rxBuffer: array?<byte>
    var rxPos: nat

    var txLen: nat
    var rxLen: nat
    var txRxState: nat
    var devAddr: byte
    var rxSize: nat
    var stop: nat

    /** Everything the driver did through this handle, oldest first. */
    ghost var trace: seq<BusEvent>
    /** CR1 when the handle was created. */
    ghost var cr1Base: bv32

    /** The handle invariant kept by the interrupt-driven entry points and handlers. */
    ghost predicate Valid()
      reads this`txRxState, this`txLen, this`rxLen, this`rxSize, this`txBuffer, this`txPos, this`rxBuffer, this`rxPos
    {
      txRxState <= BUSY_IN_RX
      && (txRxState == BUSY_IN_TX ==> txBuffer != null && txPos + txLen <= txBuffer.Length)
      && (txRxState == BUSY_IN_RX ==>
            rxBuffer != null && rxPos + rxLen == rxSize && rxSize <= rxBuffer.Length
            && (rxSize > 0 ==> rxLen > 0))
    }

    /** The value of CR1: its value at creation, driven by every CR1 write in the trace. */
    ghost function Cr1(): bv32
      reads this`trace, this`cr1Base
    {
      Cr1After(cr1Base, trace)
    }

    ghost predicate Busy()
      reads this`txRxState
    {
      txRxState == BUSY_IN_TX || txRxState == BUSY_IN_RX
    }

    ghost predicate Master()
      reads this`regs, regs`SR2
    {
      regs.SR2 & SR2_MSL != 0
    }

    /** The byte `pTxBuffer` points at; 0 without a transmit buffer. */
    ghost function TxNext(): byte
      reads this`txBuffer, this`txPos, txBuffer
    {
      if txBuffer != null && txPos < txBuffer.Length then txBuffer[txPos] else 0
    }

    /** The handle as the event handler reads it. */
    ghost function View(): Transfer
      reads this`txRxState, this`devAddr, this`txLen, this`txBuffer, this`txPos, this`rxSize, this`rxLen,
        this`stop, this`ackControl, txBuffer
    {
      Transfer(txRxState, devAddr, txLen, TxNext(), rxSize, rxLen, stop == I2C_STOP, ackControl == ACK_ENABLE)
    }

    constructor (regs: I2cRegs, cr1: bv32, sclSpeed: bv32, deviceAddress: bv8, ackControl: bv8, fmDutyCycle: bv8)
      ensures Valid() && Cr1() == cr1 && this.regs == regs && txRxState == READY && trace == []
      ensures this.sclSpeed == sclSpeed && this.deviceAddress == deviceAddress
      ensures this.ackControl == ackControl && this.fmDutyCycle == fmDutyCycle
      ensures txBuffer == null && rxBuffer == null && txLen == 0 && rxLen == 0 && rxSize == 0
    {
      this.regs := regs;
      this.sclSpeed, this.deviceAddress, this.ackControl, this.fmDutyCycle := sclSpeed, deviceAddress, ackControl, fmDutyCycle;
      txBuffer, txPos, rxBuffer, rxPos := null, 0, null, 0;
      txLen, rxLen, txRxState, devAddr, rxSize, stop := 0, 0, READY, 0, 0, I2C_STOP;
      trace := [];
      cr1Base := cr1;
    }

    // ----- register configuration -----

    /** I2C_Init: CR1, CR2, OAR1, CCR and TRISE from the configuration and PCLK1. */
    method Init(pclk1: bv32)
      requires CcrDivisor(sclSpeed, fmDutyCycle) != 0
      modifies this`trace, regs`CR2, regs`OAR1, regs`CCR, regs`TRISE
      ensures Cr1() == Cr1InitRegister(ackControl)
      ensures regs.CR2 == FreqField(pclk1)
      ensures regs.OAR1 == Oar1Register(deviceAddress)
      ensures regs.CCR == CcrRegister(pclk1, sclSpeed, fmDutyCycle)
      ensures regs.TRISE == TriseRegister(pclk1, sclSpeed)
      ensures trace == old(trace) + [Cr1Load(Cr1InitRegister(ackControl))]
    {
      var cr1 := Cr1InitRegister(ackControl);
      Cr1AfterSnoc(cr1Base, trace, Cr1Load(cr1));
      trace := trace + [Cr1Load(cr1)];
      regs.CR2 := FreqField(pclk1);
      regs.OAR1 := Oar1Register(deviceAddress);
      regs.CCR := CcrRegister(pclk1, sclSpeed, fmDutyCycle);
      regs.TRISE := TriseRegister(pclk1, sclSpeed);
    }

    /** I2C_PeripheralControl: sets or clears PE and nothing else. */
    method PeripheralControl(enable: bv8)
      modifies this`trace
      ensures enable == 1 ==> Cr1() == SetBits(old(Cr1()), CR1_PE)
      ensures enable != 1 ==> Cr1() == ClearBits(old(Cr1()), CR1_PE)
      ensures trace == old(trace) + [SetPE(enable == 1)]
    {
      if enable == 1 {
        PeripheralEnable();
      } else {
        PeripheralDisable();
      }
    }

    /** The enable branch of I2C_PeripheralControl. */
    method PeripheralEnable()
      modifies this`trace
      ensures Cr1() == SetBits(old(Cr1()), CR1_PE)
      ensures trace == old(trace) + [SetPE(true)]
    {
      Cr1AfterSnoc(cr1Base, trace, SetPE(true));
      PESetStep(Cr1());
      trace := trace + [SetPE(true)];
    }

    /** The disable branch of I2C_PeripheralControl. */
    method PeripheralDisable()
      modifies this`trace
      ensures Cr1() == ClearBits(old(Cr1()), CR1_PE)
      ensures trace == old(trace) + [SetPE(false)]
    {
      Cr1AfterSnoc(cr1Base, trace, SetPE(false));
      PEClearStep(Cr1());
      trace := trace + [SetPE(false)];
    }

    // ----- primitives: each appends its events to the trace -----

    /** Append an event that leaves CR1 alone. */
    method Log(e: BusEvent)
      requires Cr1Neutral(e)
      modifies this`trace
      ensures trace == old(trace) + [e]
    {
      Cr1AfterSnoc(cr1Base, trace, e);
      NeutralStep(Cr1(), e);
      trace := trace + [e];
    }

    /** I2C_GenerateStartCondition. */
    method GenerateStart()
      modifies this`trace
      ensures Cr1() == SetBits(old(Cr1()), CR1_START)
      ensures trace == old(trace) + [Start]
    {
      Cr1AfterSnoc(cr1Base, trace, Start);
      StartStep(Cr1());
      trace := trace + [Start];
    }

    /** I2C_GenerateStopCondition. */
    method GenerateStop()
      modifies this`trace
      ensures Cr1() == SetBits(old(Cr1()), CR1_STOP)
      ensures trace == old(trace) + [Stop]
    {
      Cr1AfterSnoc(cr1Base, trace, Stop);
      StopStep(Cr1());
      trace := trace + [Stop];
    }

    /** I2C_ManageAcking: ACK on for I2C_ACK_ENABLE, off for any other value. */
    method ManageAcking(enable: bv8)
      modifies this`trace
      ensures enable == ACK_ENABLE ==> Cr1() == SetBits(old(Cr1()), CR1_ACK)
      ensures enable != ACK_ENABLE ==> Cr1() == ClearBits(old(Cr1()), CR1_ACK)
      ensures trace == old(trace) + [if enable == ACK_ENABLE then AckOn else AckOff]
    {
      if enable == ACK_ENABLE {
        AckEnable();
      } else {
        AckDisable();
      }
    }

    /** The ACK-enable branch of I2C_ManageAcking. */
    method AckEnable()
      modifies this`trace
      ensures Cr1() == SetBits(old(Cr1()), CR1_ACK)
      ensures trace == old(trace) + [AckOn]
    {
      Cr1AfterSnoc(cr1Base, trace, AckOn);
      AckOnStep(Cr1());
      trace := trace + [AckOn];
    }

    /** The ACK-disable branch of I2C_ManageAcking. */
    method AckDisable()
      modifies this`trace
      ensures Cr1() == ClearBits(old(Cr1()), CR1_ACK)
      ensures trace == old(trace) + [AckOff]
    {
      Cr1AfterSnoc(cr1Base, trace, AckOff);
      AckOffClears(Cr1());
      trace := trace + [AckOff];
    }

    /** STOP when `cond` holds. */
    method StopWhen(cond: bool)
      modifies this`trace
      ensures trace == old(trace) + StopIf(cond)
    {
      if cond {
        GenerateStop();
      }
    }

    /** ACK off when `cond` holds. */
    method AckOffWhen(cond: bool)
      modifies this`trace
      ensures trace == old(trace) + AckOffIf(cond)
    {
      if cond {
        ManageAcking(ACK_DISABLE);
      }
    }

    /** ACK back on when the configuration enables it. */
    method RestoreAcking()
      modifies this`trace
      ensures trace == old(trace) + AckOnIf(ackControl == ACK_ENABLE)
    {
      if ackControl == ACK_ENABLE {
        ManageAcking(ACK_ENABLE);
      }
    }

    /** I2C_ExecuteAddressPhaseWrite. */
    method ExecuteAddressPhaseWrite(slave: byte)
      modifies this`trace, regs`DR
      ensures regs.DR == AddressPhaseWrite(slave)
      ensures trace == old(trace) + [AddrByte(AddressPhaseWrite(slave))]
    {
      var a := AddressPhaseWrite(slave);
      regs.DR := a;
      Log(AddrByte(a));
    }

    /** I2C_ExecuteAddressPhaseRead. */
    method ExecuteAddressPhaseRead(slave: byte)
      modifies this`trace, regs`DR
      ensures regs.DR == AddressPhaseRead(slave)
      ensures trace == old(trace) + [AddrByte(AddressPhaseRead(slave))]
    {
      var a := AddressPhaseRead(slave);
      regs.DR := a;
      Log(AddrByte(a));
    }

    /** Wait for RXNE; the slave's byte `b` is then in DR. */
    method AwaitRxne(b: byte)
      modifies this`trace, regs`DR
      ensures regs.DR == b
      ensures trace == old(trace) + [Await(RXNE)]
    {
      Log(Await(RXNE));
      regs.DR := b;
    }

    /** A byte written to DR. */
    method WriteData(b: byte)
      modifies this`trace, regs`DR
      ensures regs.DR == b
      ensures trace == old(trace) + [WriteDR(b)]
    {
      regs.DR := b;
      Log(WriteDR(b));
    }

    /** A DR read as uint8. */
    method ReadData() returns (b: byte)
      modifies this`trace
      ensures b == LowByte(regs.DR)
      ensures trace == old(trace) + [ReadDR(b)]
    {
      b := LowByte(regs.DR);
      Log(ReadDR(b));
    }

    /** I2C_ClearADDRFlag: skipped entirely for a master in BUSY_IN_RX with RxSize != 1. */
    method ClearAddrFlag()
      modifies this`trace
      ensures trace == old(trace) + ClearAddrSteps(Master(), txRxState, rxSize)
    {
      if regs.SR2 & SR2_MSL != 0 {
        if txRxState == BUSY_IN_RX {
          if rxSize == 1 {
            ManageAcking(ACK_DISABLE);
            Log(ClearAddr);
            Snoc2(old(trace), AckOff, ClearAddr);
          }
        } else {
          Log(ClearAddr);
        }
      } else {
        Log(ClearAddr);
      }
    }

    // ----- blocking transfers -----

    /** Start, address byte (write) and ADDR wait of a blocking send. */
    method SendAddress(slave: byte)
      modifies this`trace, regs`DR
      ensures trace == old(trace) + SendHead(slave)
    {
      GenerateStart();
      Log(Await(SB));
      ExecuteAddressPhaseWrite(slave);
      Log(Await(ADDR));
      Snoc4(old(trace), Start, Await(SB), AddrByte(AddressPhaseWrite(slave)), Await(ADDR));
    }

    /** One data byte of a blocking send: wait for TXE, write DR. */
    method SendByte(b: byte)
      modifies this`trace, regs`DR
      ensures trace == old(trace) + [Await(TXE), WriteDR(b)]
      ensures regs.DR == b
    {
      Log(Await(TXE));
      WriteData(b);
      Snoc2(old(trace), Await(TXE), WriteDR(b));
    }

    /** The data loop of a blocking send: one byte per TXE, `len` counting down. */
    method SendBytes(txBuf: array<byte>, len: nat)
      requires len <= txBuf.Length
      modifies this`trace, regs`DR
      ensures trace == old(trace) + WriteSteps(txBuf[..len])
      ensures len > 0 ==> regs.DR == txBuf[len - 1]
    {
      ghost var t0 := trace;
      var remaining := len;
      var p := 0;
      while remaining > 0
        invariant 0 <= remaining && p <= len && remaining == len - p
        invariant trace == t0 + WriteSteps(txBuf[..p])
        invariant p > 0 ==> regs.DR == txBuf[p - 1]
      {
        SendByte(txBuf[p]);
        assert txBuf[..p + 1][..p] == txBuf[..p];
        Regroup2(t0, WriteSteps(txBuf[..p]), [Await(TXE), WriteDR(txBuf[p])]);
        p := p + 1;
        remaining := remaining - 1;
      }
      assert txBuf[..p] == txBuf[..len];
    }

    /** The end of a blocking send: TXE and BTF, then STOP when requested. */
    method SendTail(stopMode: nat)
      modifies this`trace
      ensures trace == old(trace) + [Await(TXE), Await(BTF)] + StopIf(stopMode == I2C_STOP)
    {
      Log(Await(TXE));
      Log(Await(BTF));
      Snoc2(old(trace), Await(TXE), Await(BTF));
      StopWhen(stopMode == I2C_STOP);
    }

    /** I2C_MasterSendData (blocking). */
    method MasterSendData(txBuf: array<byte>, len: nat, slave: byte, stopMode: nat)
      requires len <= txBuf.Length && len < U32_LIMIT
      modifies this`trace, regs`DR
      ensures trace == old(trace) + SendSteps(slave, txBuf[..len], ClearAddrSteps(Master(), txRxState, rxSize), stopMode == I2C_STOP)
      ensures len > 0 ==> regs.DR == txBuf[len - 1]
    {
      ghost var head := SendHead(slave);
      ghost var clear := ClearAddrSteps(Master(), txRxState, rxSize);
      ghost var w := WriteSteps(txBuf[..len]);
      SendAddress(slave);
      ClearAddrFlag();
      SendBytes(txBuf, len);
      SendTail(stopMode);
      Regroup5(old(trace), head, clear, w, [Await(TXE), Await(BTF)], StopIf(stopMode == I2C_STOP));
    }

    /** Start, address byte (read) and ADDR wait of a blocking receive. */
    method ReceiveAddress(slave: byte)
      modifies this`trace, regs`DR
      ensures trace == old(trace) + ReceiveHead(slave)
    {
      GenerateStart();
      Log(Await(SB));
      ExecuteAddressPhaseRead(slave);
      Log(Await(ADDR));
      Snoc4(old(trace), Start, Await(SB), AddrByte(AddressPhaseRead(slave)), Await(ADDR));
    }

    /** Single-byte branch of the blocking receive. */
    method ReceiveSingle(stopMode: nat, incoming: byte) returns (b: byte)
      modifies this`trace, regs`DR
      ensures b == incoming
      ensures trace == old(trace) + ReceiveOne(incoming, ClearAddrSteps(Master(), txRxState, rxSize), stopMode == I2C_STOP)
    {
      ghost var clear := ClearAddrSteps(Master(), txRxState, rxSize);
      ghost var st := StopIf(stopMode == I2C_STOP);
      ManageAcking(ACK_DISABLE);
      ClearAddrFlag();
      AwaitRxne(incoming);
      StopWhen(stopMode == I2C_STOP);
      b := ReadData();
      Regroup5(old(trace), [AckOff], clear, [Await(RXNE)], st, [ReadDR(b)]);
    }

    /** One iteration of the multi-byte receive loop, `i` bytes remaining. */
    method ReceiveIteration(i: nat, stopMode: nat, incoming: byte) returns (b: byte)
      modifies this`trace, regs`DR
      ensures b == incoming
      ensures trace == old(trace) + ReadIteration(i, incoming, stopMode == I2C_STOP)
    {
      ghost var ack := AckOffIf(i == 2);
      ghost var st := StopIf(i == 1 && stopMode == I2C_STOP);
      AwaitRxne(incoming);
      AckOffWhen(i == 2);
      StopWhen(i == 1 && stopMode == I2C_STOP);
      b := ReadData();
      Regroup4(old(trace), [Await(RXNE)], ack, st, [ReadDR(b)]);
    }

    /** Multi-byte branch of the blocking receive: the countdown loop. */
    method ReceiveLoop(rxBuf: array<byte>, len: nat, stopMode: nat, incoming: seq<byte>)
      requires len <= rxBuf.Length && |incoming| == len
      modifies this`trace, regs`DR, rxBuf
      ensures trace == old(trace) + ReadLoop(incoming, stopMode == I2C_STOP)
      ensures rxBuf[..len] == incoming
      ensures rxBuf[len..] == old(rxBuf[len..])
    {
      ghost var t0 := trace;
      ghost var stopped := stopMode == I2C_STOP;
      var i := len;
      var p := 0;
      while i > 0
        invariant 0 <= i <= len && p == len - i
        invariant trace + ReadLoop(incoming[p..], stopped) == t0 + ReadLoop(incoming, stopped)
        invariant rxBuf[..p] == incoming[..p]
        invariant rxBuf[len..] == old(rxBuf[len..])
      {
        ghost var t1 := trace;
        var b := ReceiveIteration(i, stopMode, incoming[p]);
        rxBuf[p] := b;
        ghost var it := ReadIteration(i, incoming[p], stopped);
        ghost var rest := ReadLoop(incoming[p + 1..], stopped);
        assert ReadLoop(incoming[p..], stopped) == it + rest by {
          assert incoming[p..][1..] == incoming[p + 1..];
        }
        Regroup2(t1, it, rest);
        assert rxBuf[..p + 1] == rxBuf[..p] + [b];
        assert incoming[..p + 1] == incoming[..p] + [incoming[p]];
        p := p + 1;
        i := i - 1;
      }
      assert incoming[p..] == [];
      assert rxBuf[..len] == rxBuf[..p];
    }

    /** The data phase of a blocking receive, by length. */
    method ReceiveDataPhase(rxBuf: array<byte>, len: nat, stopMode: nat, incoming: seq<byte>)
      requires len <= rxBuf.Length && |incoming| == len
      modifies this`trace, regs`DR, rxBuf
      ensures trace == old(trace) + ReceiveBody(incoming, ClearAddrSteps(Master(), txRxState, rxSize), stopMode == I2C_STOP)
      ensures rxBuf[..len] == incoming
      ensures rxBuf[len..] == old(rxBuf[len..])
    {
      ghost var clear := ClearAddrSteps(Master(), txRxState, rxSize);
      if len == 1 {
        var b := ReceiveSingle(stopMode, incoming[0]);
        rxBuf[0] := b;
        assert rxBuf[..len] == incoming;
      }
      if len > 1 {
        ClearAddrFlag();
        ReceiveLoop(rxBuf, len, stopMode, incoming);
        Regroup2(old(trace), clear, ReadLoop(incoming, stopMode == I2C_STOP));
      }
      assert clear == ClearAddrSteps(Master(), txRxState, rxSize);
    }

    /**
     * I2C_MasterReceiveData (blocking).  `incoming` are the bytes the slave
     * drives onto the bus, one per RXNE.
     */
    method MasterReceiveData(rxBuf: array<byte>, len: nat, slave: byte, stopMode: nat, incoming: seq<byte>)
      requires len <= rxBuf.Length && len < U32_LIMIT && |incoming| == len
      modifies this`trace, regs`DR, rxBuf
      ensures trace == old(trace) + ReceiveSteps(slave, incoming, ClearAddrSteps(Master(), txRxState, rxSize),
                                                 stopMode == I2C_STOP, ackControl == ACK_ENABLE)
      ensures rxBuf[..len] == incoming
      ensures rxBuf[len..] == old(rxBuf[len..])
    {
      ghost var head := ReceiveHead(slave);
      ghost var body := ReceiveBody(incoming, ClearAddrSteps(Master(), txRxState, rxSize), stopMode == I2C_STOP);
      ghost var ack := AckOnIf(ackControl == ACK_ENABLE);
      ReceiveAddress(slave);
      ReceiveDataPhase(rxBuf, len, stopMode, incoming);
      RestoreAcking();
      Regroup3(old(trace), head, body, ack);
    }

    // ----- interrupt-driven transfers -----

    /** Clear STOP, generate START, enable the buffer, event and error interrupts. */
    method StartInterruptTransfer()
      modifies this`trace, regs`CR2
      ensures Cr1() == SetBits(ClearBits(old(Cr1()), CR1_STOP), CR1_START)
      ensures regs.CR2 == SetBits(SetBits(SetBits(old(regs.CR2), CR2_ITBUFEN), CR2_ITEVTEN), CR2_ITERREN)
      ensures trace == old(trace) + [ClearStop, Start]
    {
      Cr1AfterSnoc(cr1Base, trace, ClearStop);
      ClearStopStep(Cr1());
      trace := trace + [ClearStop];
      GenerateStart();
      Snoc2(old(trace), ClearStop, Start);
      regs.CR2 := SetBits(regs.CR2, CR2_ITBUFEN);
      regs.CR2 := SetBits(regs.CR2, CR2_ITEVTEN);
      regs.CR2 := SetBits(regs.CR2, CR2_ITERREN);
    }

    /** I2C_MasterSendDataIT: returns the previous state; starts a transfer only when not busy. */
    method MasterSendDataIT(txBuf: array<byte>, len: nat, slave: byte, stopMode: nat) returns (state: nat)
      requires Valid() && len <= txBuf.Length && len < U32_LIMIT
      modifies this`txBuffer, this`txPos, this`txLen, this`devAddr, this`txRxState, this`stop, this`trace, regs`CR2
      ensures Valid()
      ensures state == old(txRxState)
      ensures old(Busy()) ==> unchanged(this) && unchanged(regs)
      ensures !old(Busy()) ==>
        txBuffer == txBuf && txPos == 0 && txLen == len && devAddr == slave
        && txRxState == BUSY_IN_TX && stop == stopMode
        && regs.CR2 == SetBits(SetBits(SetBits(old(regs.CR2), CR2_ITBUFEN), CR2_ITEVTEN), CR2_ITERREN)
        && trace == old(trace) + [ClearStop, Start]
    {
      state := txRxState;
      if state != BUSY_IN_TX && state != BUSY_IN_RX {
        txBuffer, txPos := txBuf, 0;
        txLen := len;
        devAddr := slave;
        txRxState := BUSY_IN_TX;
        stop := stopMode;
        StartInterruptTransfer();
      }
    }

    /** I2C_MasterReceiveDataIT: as the send entry point, with RxLen = RxSize = Len. */
    method MasterReceiveDataIT(rxBuf: array<byte>, len: nat, slave: byte, stopMode: nat) returns (state: nat)
      requires Valid() && len <= rxBuf.Length && len < U32_LIMIT
      modifies this`rxBuffer, this`rxPos, this`rxLen, this`rxSize, this`devAddr, this`txRxState, this`stop, this`trace, regs`CR2
      ensures Valid()
      ensures state == old(txRxState)
      ensures old(Busy()) ==> unchanged(this) && unchanged(regs)
      ensures !old(Busy()) ==>
        rxBuffer == rxBuf && rxPos == 0 && rxLen == len && rxSize == len && devAddr == slave
        && txRxState == BUSY_IN_RX && stop == stopMode
        && regs.CR2 == SetBits(SetBits(SetBits(old(regs.CR2), CR2_ITBUFEN), CR2_ITEVTEN), CR2_ITERREN)
        && trace == old(trace) + [ClearStop, Start]
    {
      state := txRxState;
      if state != BUSY_IN_TX && state != BUSY_IN_RX {
        rxBuffer, rxPos := rxBuf, 0;
        rxLen := len;
        devAddr := slave;
        rxSize := len;
        txRxState := BUSY_IN_RX;
        stop := stopMode;
        StartInterruptTransfer();
      }
    }

    /** I2C_CloseSendData. */
    method CloseSendData()
      modifies this`txRxState, this`txBuffer, this`txPos, this`txLen, regs`CR2
      ensures regs.CR2 == ClearBits(ClearBits(old(regs.CR2), CR2_ITBUFEN), CR2_ITEVTEN)
      ensures txRxState == READY && txBuffer == null && txPos == 0 && txLen == 0
    {
      regs.CR2 := ClearBits(regs.CR2, CR2_ITBUFEN);
      regs.CR2 := ClearBits(regs.CR2, CR2_ITEVTEN);
      txRxState := READY;
      txBuffer, txPos := null, 0;
      txLen := 0;
    }

    /** I2C_CloseReceiveData: also restores ACK when the configuration enables it. */
    method CloseReceiveData()
      modifies this`txRxState, this`rxBuffer, this`rxPos, this`rxLen, this`rxSize, this`trace, regs`CR2
      ensures regs.CR2 == ClearBits(ClearBits(old(regs.CR2), CR2_ITBUFEN), CR2_ITEVTEN)
      ensures txRxState == READY && rxBuffer == null && rxPos == 0 && rxLen == 0 && rxSize == 0
      ensures trace == old(trace) + AckOnIf(ackControl == ACK_ENABLE)
    {
      regs.CR2 := ClearBits(regs.CR2, CR2_ITBUFEN);
      regs.CR2 := ClearBits(regs.CR2, CR2_ITEVTEN);
      txRxState := READY;
      rxBuffer, rxPos := null, 0;
      rxLen := 0;
      rxSize := 0;
      RestoreAcking();
    }

    /** I2C_MasterHandleTXEInterrupt: one byte per call; nothing once TxLen is 0. */
    method MasterHandleTxe()
      requires Valid()
      modifies this`txLen, this`txPos, this`trace, regs`DR
      ensures Valid()
      ensures old(txRxState == BUSY_IN_TX && txLen > 0) ==>
        regs.DR == old(txBuffer[txPos]) && txLen == old(txLen) - 1 && txPos == old(txPos) + 1
        && trace == old(trace) + [WriteDR(old(txBuffer[txPos]))]
      ensures !old(txRxState == BUSY_IN_TX && txLen > 0) ==>
        regs.DR == old(regs.DR) && txLen == old(txLen) && txPos == old(txPos) && trace == old(trace)
    {
      if txRxState == BUSY_IN_TX {
        if txLen > 0 {
          WriteData(txBuffer[txPos]);
          txLen := txLen - 1;
          txPos := txPos + 1;
        }
      }
    }

    /** The DR read of the RXNE handler, stored at the current buffer position. */
    method StoreReceived()
      requires rxBuffer != null && rxPos < rxBuffer.Length
      modifies this`trace, rxBuffer
      ensures rxBuffer[..] == old(rxBuffer[..])[rxPos := LowByte(regs.DR)]
      ensures trace == old(trace) + [ReadDR(LowByte(regs.DR))]
    {
      var b := ReadData();
      rxBuffer[rxPos] := b;
    }

    /** RXNE with RxSize 1: ACK off, read the byte; the pointer does not move. */
    method RxneReadOne()
      requires Valid() && txRxState == BUSY_IN_RX && rxSize == 1
      modifies this`rxLen, this`trace, rxBuffer
      ensures rxBuffer[..] == old(rxBuffer[..])[rxPos := LowByte(regs.DR)]
      ensures rxLen == 0 && old(rxLen) == 1
      ensures trace == old(trace) + [AckOff, ReadDR(LowByte(regs.DR))]
    {
      ManageAcking(ACK_DISABLE);
      StoreReceived();
      rxLen := rxLen - 1;
      Snoc2(old(trace), AckOff, ReadDR(LowByte(regs.DR)));
    }

    /** RXNE with RxSize above 1: ACK off when two bytes are left, read the byte, advance. */
    method RxneReadMany()
      requires Valid() && txRxState == BUSY_IN_RX && rxSize > 1
      modifies this`rxLen, this`rxPos, this`trace, rxBuffer
      ensures rxBuffer[..] == old(rxBuffer[..])[old(rxPos) := LowByte(regs.DR)]
      ensures rxLen == old(rxLen) - 1 && rxPos == old(rxPos) + 1
      ensures trace == old(trace) + AckOffIf(old(rxLen) == 2) + [ReadDR(LowByte(regs.DR))]
    {
      ghost var ack := AckOffIf(rxLen == 2);
      AckOffWhen(rxLen == 2);
      StoreReceived();
      rxLen := rxLen - 1;
      rxPos := rxPos + 1;
    }

    /** The completion half: STOP if requested, close the reception, report RX_CMPLT. */
    method RxneComplete()
      modifies this`rxLen, this`rxPos, this`rxBuffer, this`rxSize, this`txRxState, this`trace, regs`CR2
      ensures txRxState == READY && rxLen == 0 && rxSize == 0 && rxBuffer == null && rxPos == 0
      ensures regs.CR2 == ClearBits(ClearBits(old(regs.CR2), CR2_ITBUFEN), CR2_ITEVTEN)
      ensures trace == old(trace) + RxCompleteSteps(stop == I2C_STOP, ackControl == ACK_ENABLE)
    {
      ghost var st := StopIf(stop == I2C_STOP);
      ghost var ack := AckOnIf(ackControl == ACK_ENABLE);
      StopWhen(stop == I2C_STOP);
      CloseReceiveData();
      Log(Callback(EV_RX_CMPLT));
      Regroup3(old(trace), st, ack, [Callback(EV_RX_CMPLT)]);
    }

    /** I2C_MasterHandleRXNEInterrupt: acts only while a master reception is in progress. */
    method MasterHandleRxne()
      requires Valid()
      modifies this`rxLen, this`rxPos, this`rxBuffer, this`rxSize, this`txRxState, this`trace, regs`CR2, rxBuffer
      ensures Valid()
      ensures old(txRxState) != BUSY_IN_RX ==> unchanged(this) && unchanged(regs)
      ensures old(txRxState) == BUSY_IN_RX ==>
        trace == old(trace) + RxneSteps(old(rxSize), old(rxLen), LowByte(regs.DR), stop == I2C_STOP, ackControl == ACK_ENABLE)
      ensures old(txRxState) == BUSY_IN_RX && old(rxSize) >= 1 ==>
        old(rxBuffer)[..] == old(rxBuffer[..])[old(rxPos) := LowByte(regs.DR)]
      ensures old(txRxState) == BUSY_IN_RX ==>
        txRxState == (if RxneFinishes(old(rxSize), old(rxLen)) then READY else BUSY_IN_RX)
      ensures old(txRxState) == BUSY_IN_RX && txRxState == READY ==>
        rxBuffer == null && rxLen == 0 && rxSize == 0
        && regs.CR2 == ClearBits(ClearBits(old(regs.CR2), CR2_ITBUFEN), CR2_ITEVTEN)
      ensures old(txRxState) == BUSY_IN_RX && txRxState == BUSY_IN_RX ==>
        rxLen == old(rxLen) - 1 && rxPos == old(rxPos) + 1 && rxBuffer == old(rxBuffer) && regs.CR2 == old(regs.CR2)
    {
      if txRxState == BUSY_IN_RX {
        RxneReceive();
      }
    }

    /**
     * The body of I2C_MasterHandleRXNEInterrupt in BUSY_IN_RX: read one byte,
     * close the reception after the last.  The handler's RxSize tests are
     * exclusive, so each RxSize case is its own method.
     */
    method RxneReceive()
      requires Valid() && txRxState == BUSY_IN_RX
      modifies this`rxLen, this`rxPos, this`rxBuffer, this`rxSize, this`txRxState, this`trace, regs`CR2, rxBuffer
      ensures Valid()
      ensures trace == old(trace) + RxneSteps(old(rxSize), old(rxLen), LowByte(regs.DR), stop == I2C_STOP, ackControl == ACK_ENABLE)
      ensures old(rxSize) >= 1 ==> old(rxBuffer)[..] == old(rxBuffer[..])[old(rxPos) := LowByte(regs.DR)]
      ensures txRxState == (if RxneFinishes(old(rxSize), old(rxLen)) then READY else BUSY_IN_RX)
      ensures txRxState == READY ==>
        rxBuffer == null && rxLen == 0 && rxSize == 0
        && regs.CR2 == ClearBits(ClearBits(old(regs.CR2), CR2_ITBUFEN), CR2_ITEVTEN)
      ensures txRxState == BUSY_IN_RX ==>
        rxLen == old(rxLen) - 1 && rxPos == old(rxPos) + 1 && rxBuffer == old(rxBuffer) && regs.CR2 == old(regs.CR2)
    {
      ghost var b := LowByte(regs.DR);
      ghost var steps := RxneSteps(rxSize, rxLen, b, stop == I2C_STOP, ackControl == ACK_ENABLE);
      ghost var rxc := RxCompleteSteps(stop == I2C_STOP, ackControl == ACK_ENABLE);
      if rxSize == 1 {
        assert steps == [AckOff, ReadDR(b)] + rxc;
        RxneReceiveOne();
        Regroup2(old(trace), [AckOff, ReadDR(b)], rxc);
      } else if rxSize > 1 {
        ghost var ack := AckOffIf(rxLen == 2);
        ghost var done: seq<BusEvent> := if rxLen == 1 then rxc else [];
        assert steps == ack + [ReadDR(b)] + done;
        RxneReceiveMany();
        Regroup3(old(trace), ack, [ReadDR(b)], done);
      } else {
        assert steps == [] + rxc;
        RxneCompleteIfDone();
      }
      assert b == LowByte(regs.DR);
    }

    /** RXNE with RxSize 1: the only byte is read and the reception closes. */
    method RxneReceiveOne()
      requires Valid() && txRxState == BUSY_IN_RX && rxSize == 1
      modifies this`rxLen, this`rxPos, this`rxBuffer, this`rxSize, this`txRxState, this`trace, regs`CR2, rxBuffer
      ensures Valid() && old(rxLen) == 1
      ensures trace == old(trace) + [AckOff, ReadDR(LowByte(regs.DR))] + RxCompleteSteps(stop == I2C_STOP, ackControl == ACK_ENABLE)
      ensures old(rxBuffer)[..] == old(rxBuffer[..])[old(rxPos) := LowByte(regs.DR)]
      ensures txRxState == READY && rxBuffer == null && rxLen == 0 && rxSize == 0
      ensures regs.CR2 == ClearBits(ClearBits(old(regs.CR2), CR2_ITBUFEN), CR2_ITEVTEN)
    {
      ghost var b := LowByte(regs.DR);
      RxneReadOne();
      RxneCompleteIfDone();
      assert b == LowByte(regs.DR);
    }

    /** RXNE with RxSize above 1: one byte is read; the reception closes after the last. */
    method RxneReceiveMany()
      requires Valid() && txRxState == BUSY_IN_RX && rxSize > 1
      modifies this`rxLen, this`rxPos, this`rxBuffer, this`rxSize, this`txRxState, this`trace, regs`CR2, rxBuffer
      ensures Valid()
      ensures trace == old(trace) + AckOffIf(old(rxLen) == 2) + [ReadDR(LowByte(regs.DR))]
                       + (if old(rxLen) == 1 then RxCompleteSteps(stop == I2C_STOP, ackControl == ACK_ENABLE) else [])
      ensures old(rxBuffer)[..] == old(rxBuffer[..])[old(rxPos) := LowByte(regs.DR)]
      ensures txRxState == (if old(rxLen) == 1 then READY else BUSY_IN_RX)
      ensures txRxState == READY ==>
        rxBuffer == null && rxLen == 0 && rxSize == 0
        && regs.CR2 == ClearBits(ClearBits(old(regs.CR2), CR2_ITBUFEN), CR2_ITEVTEN)
      ensures txRxState == BUSY_IN_RX ==>
        rxLen == old(rxLen) - 1 && rxPos == old(rxPos) + 1 && rxBuffer == old(rxBuffer) && regs.CR2 == old(regs.CR2)
    {
      ghost var b := LowByte(regs.DR);
      RxneReadMany();
      RxneCompleteIfDone();
      assert b == LowByte(regs.DR);
    }

    /** The RxLen == 0 test that ends a reception. */
    method RxneCompleteIfDone()
      modifies this`rxLen, this`rxPos, this`rxBuffer, this`rxSize, this`txRxState, this`trace, regs`CR2
      ensures old(rxLen) == 0 ==> Valid()
      ensures old(rxLen) == 0 ==>
        txRxState == READY && rxLen == 0 && rxSize == 0 && rxBuffer == null && rxPos == 0
        && regs.CR2 == ClearBits(ClearBits(old(regs.CR2), CR2_ITBUFEN), CR2_ITEVTEN)
      ensures old(rxLen) != 0 ==>
        txRxState == old(txRxState) && rxLen == old(rxLen) && rxSize == old(rxSize)
        && rxBuffer == old(rxBuffer) && rxPos == old(rxPos) && regs.CR2 == old(regs.CR2)
      ensures trace == old(trace) + (if old(rxLen) == 0 then RxCompleteSteps(stop == I2C_STOP, ackControl == ACK_ENABLE) else [])
    {
      if rxLen == 0 {
        RxneComplete();
      } else {
        assert trace + [] == trace;
      }
    }

    // ----- I2C_EV_IRQHandling, one method per numbered step -----

    /** Step 1: SB - send the address byte for the current direction. */
    method EvStartBit()
      requires Valid()
      modifies this`trace, regs`DR
      ensures Valid()
      ensures txRxState == BUSY_IN_TX ==>
        trace == old(trace) + [AddrByte(AddressPhaseWrite(devAddr))] && regs.DR == AddressPhaseWrite(devAddr)
      ensures txRxState == BUSY_IN_RX ==>
        trace == old(trace) + [AddrByte(AddressPhaseRead(devAddr))] && regs.DR == AddressPhaseRead(devAddr)
      ensures !Busy() ==> trace == old(trace) && regs.DR == old(regs.DR)
      ensures trace == old(trace) + StartBitSteps(txRxState, devAddr)
      ensures regs.DR == StartBitDr(txRxState, devAddr, old(regs.DR))
    {
      if txRxState == BUSY_IN_TX {
        ExecuteAddressPhaseWrite(devAddr);
      } else if txRxState == BUSY_IN_RX {
        ExecuteAddressPhaseRead(devAddr);
      }
    }

    /** Step 2: ADDR - clear the flag (I2C_ClearADDRFlag). */
    method EvAddressMatched()
      requires Valid()
      modifies this`trace
      ensures Valid()
      ensures trace == old(trace) + ClearAddrSteps(Master(), txRxState, rxSize)
    {
      ClearAddrFlag();
    }

    /** Step 4: BTF - finish a transmission whose bytes are all out (TXE set, TxLen 0). */
    method EvByteTransferFinished()
      requires Valid()
      modifies this`txRxState, this`txBuffer, this`txPos, this`txLen, this`trace, regs`CR2
      ensures Valid()
      ensures old(txRxState == BUSY_IN_TX && regs.SR1 & SR1_TXE != 0 && txLen == 0) ==>
        txRxState == READY && txBuffer == null && txLen == 0
        && regs.CR2 == ClearBits(ClearBits(old(regs.CR2), CR2_ITBUFEN), CR2_ITEVTEN)
        && trace == old(trace) + StopIf(stop == I2C_STOP) + [Callback(EV_TX_CMPLT)]
      ensures !old(txRxState == BUSY_IN_TX && regs.SR1 & SR1_TXE != 0 && txLen == 0) ==>
        unchanged(this) && unchanged(regs)
    {
      if txRxState == BUSY_IN_TX && regs.SR1 & SR1_TXE != 0 && txLen == 0 {
        StopWhen(stop == I2C_STOP);
        CloseSendData();
        Log(Callback(EV_TX_CMPLT));
      }
    }

    /** Step 5: STOPF - a slave detected STOP; the CR1 write clears the flag. */
    method EvStopDetected()
      requires Valid()
      modifies this`trace
      ensures Valid()
      ensures Cr1() == old(Cr1())
      ensures trace == old(trace) + [Callback(EV_STOP)]
    {
      assert Cr1() == old(Cr1());
      Log(Callback(EV_STOP));
    }

    /** Step 6: TXE - master sends the next byte; a transmitting slave is asked for data. */
    method EvTransmitEmpty()
      requires Valid()
      modifies this`txLen, this`txPos, this`trace, regs`DR
      ensures Valid()
      ensures Master() && old(txRxState == BUSY_IN_TX && txLen > 0) ==>
        regs.DR == old(TxNext()) && txLen == old(txLen) - 1 && txPos == old(txPos) + 1
        && trace == old(trace) + [WriteDR(old(TxNext()))]
      ensures Master() && !old(txRxState == BUSY_IN_TX && txLen > 0) ==>
        regs.DR == old(regs.DR) && txLen == old(txLen) && txPos == old(txPos) && trace == old(trace)
      ensures !Master() && regs.SR2 & SR2_TRA != 0 ==> trace == old(trace) + [Callback(EV_DATA_REQ)]
      ensures !Master() && regs.SR2 & SR2_TRA == 0 ==> trace == old(trace)
      ensures !Master() ==> regs.DR == old(regs.DR) && txLen == old(txLen) && txPos == old(txPos)
    {
      if regs.SR2 & SR2_MSL != 0 {
        MasterHandleTxe();
      } else if regs.SR2 & SR2_TRA != 0 {
        Log(Callback(EV_DATA_REQ));
      }
    }

    /** Step 7: RXNE - master stores the byte; a receiving slave is told data arrived. */
    method EvReceiveNotEmpty()
      requires Valid()
      modifies this`rxLen, this`rxPos, this`rxBuffer, this`rxSize, this`txRxState, this`trace, regs`CR2, rxBuffer
      ensures Valid()
      ensures Master() && old(txRxState) == BUSY_IN_RX ==>
        trace == old(trace) + RxneSteps(old(rxSize), old(rxLen), LowByte(regs.DR), stop == I2C_STOP, ackControl == ACK_ENABLE)
        && txRxState == (if RxneFinishes(old(rxSize), old(rxLen)) then READY else BUSY_IN_RX)
      ensures Master() && old(txRxState) == BUSY_IN_RX && old(rxSize) >= 1 ==>
        old(rxBuffer)[..] == old(rxBuffer[..])[old(rxPos) := LowByte(regs.DR)]
      ensures Master() && old(txRxState) == BUSY_IN_RX && txRxState == READY ==>
        rxBuffer == null && rxLen == 0 && rxSize == 0
        && regs.CR2 == ClearBits(ClearBits(old(regs.CR2), CR2_ITBUFEN), CR2_ITEVTEN)
      ensures Master() && old(txRxState) == BUSY_IN_RX && txRxState == BUSY_IN_RX ==>
        rxLen == old(rxLen) - 1 && rxPos == old(rxPos) + 1 && rxBuffer == old(rxBuffer) && regs.CR2 == old(regs.CR2)
      ensures Master() && old(txRxState) != BUSY_IN_RX ==> unchanged(this) && unchanged(regs)
      ensures !Master() && regs.SR2 & SR2_TRA == 0 ==> trace == old(trace) + [Callback(EV_DATA_RCV)]
      ensures !Master() && regs.SR2 & SR2_TRA != 0 ==> trace == old(trace)
      ensures !Master() ==> txRxState == old(txRxState) && unchanged(this`rxLen, this`rxPos, this`rxBuffer, this`rxSize)
      ensures !Master() ==> unchanged(regs) && (rxBuffer != null ==> unchanged(rxBuffer))
    {
      if regs.SR2 & SR2_MSL != 0 {
        MasterHandleRxne();
      } else if regs.SR2 & SR2_TRA == 0 {
        Log(Callback(EV_DATA_RCV));
      }
    }

    /** I2C_EV_IRQHandling: the enable bits are sampled once, the SR1 flags step by step. */
    method EvIrqHandling()
      requires Valid()
      modifies this, regs`CR2, regs`DR, rxBuffer
      ensures Valid()
      ensures regs == old(regs)
      ensures old(regs.CR2) & CR2_ITEVTEN == 0 ==> unchanged(this) && unchanged(regs)
      ensures old(regs.CR2) & CR2_ITEVTEN != 0 ==>
        trace == old(trace) + EvSteps(FlagsOf(old(regs.SR1)), old(Master()), old(regs.SR2) & SR2_TRA != 0,
                                      old(regs.CR2) & CR2_ITBUFEN != 0, old(View()), old(regs.DR))
      ensures old(regs.CR2) & CR2_ITEVTEN != 0 ==>
        txRxState == EvState(FlagsOf(old(regs.SR1)), old(Master()), old(regs.CR2) & CR2_ITBUFEN != 0, old(View()))
    {
      var temp1 := regs.CR2 & CR2_ITEVTEN;
      var temp2 := regs.CR2 & CR2_ITBUFEN;
      if temp1 != 0 {
        ghost var f := FlagsOf(regs.SR1);
        ghost var x := View();
        ghost var t0 := trace;
        EvPhaseFlags();
        ghost var t1 := trace;
        EvDataFlags(temp2 != 0);
        Regroup2(t0, PhaseSteps(f, Master(), x),
          if temp2 != 0 then DataSteps(f, Master(), regs.SR2 & SR2_TRA != 0, AfterPhase(f, x), LowByte(DrAfterPhase(f, x, old(regs.DR))))
          else []);
      }
    }

    /** Steps 1-5 of I2C_EV_IRQHandling: SB, ADDR, ADD10 (no action), BTF and STOPF. */
    method EvPhaseFlags()
      requires Valid()
      modifies this`trace, this`txRxState, this`txBuffer, this`txPos, this`txLen, regs`CR2, regs`DR
      ensures Valid()
      ensures trace == old(trace) + PhaseSteps(FlagsOf(regs.SR1), Master(), old(View()))
      ensures regs.DR == DrAfterPhase(FlagsOf(regs.SR1), old(View()), old(regs.DR))
      ensures View() == AfterPhase(FlagsOf(regs.SR1), old(View()))
      ensures BtfCloses(FlagsOf(regs.SR1), old(View())) ==>
        txBuffer == null && regs.CR2 == ClearBits(ClearBits(old(regs.CR2), CR2_ITBUFEN), CR2_ITEVTEN)
      ensures !BtfCloses(FlagsOf(regs.SR1), old(View())) ==>
        txBuffer == old(txBuffer) && txPos == old(txPos) && regs.CR2 == old(regs.CR2)
    {
      ghost var f := FlagsOf(regs.SR1);
      ghost var x := View();
      ghost var t0 := trace;
      SbStep();
      AddrStep();
      BtfStep();
      StopfStep();
      Regroup4(t0, if f.sb then StartBitSteps(x.state, x.devAddr) else [],
        if f.addr then ClearAddrSteps(Master(), x.state, x.rxSize) else [],
        if BtfCloses(f, x) then StopIf(x.stop) + [Callback(EV_TX_CMPLT)] else [],
        CallbackIf(f.stopf, EV_STOP));
    }

    /** Step 1 as the handler gates it on SR1.SB. */
    method SbStep()
      requires Valid()
      modifies this`trace, regs`DR
      ensures Valid()
      ensures trace == old(trace) + (if FlagsOf(regs.SR1).sb then StartBitSteps(txRxState, devAddr) else [])
      ensures regs.DR == DrAfterPhase(FlagsOf(regs.SR1), View(), old(regs.DR))
    {
      if regs.SR1 & SR1_SB != 0 {
        EvStartBit();
      }
    }

    /** Step 2 as the handler gates it on SR1.ADDR. */
    method AddrStep()
      requires Valid()
      modifies this`trace
      ensures Valid()
      ensures trace == old(trace) + (if FlagsOf(regs.SR1).addr then ClearAddrSteps(Master(), txRxState, rxSize) else [])
    {
      if regs.SR1 & SR1_ADDR != 0 {
        EvAddressMatched();
      }
    }

    /** Step 4 as the handler gates it on SR1.BTF. */
    method BtfStep()
      requires Valid()
      modifies this`txRxState, this`txBuffer, this`txPos, this`txLen, this`trace, regs`CR2
      ensures Valid()
      ensures trace == old(trace)
        + (if BtfCloses(FlagsOf(regs.SR1), old(View())) then StopIf(stop == I2C_STOP) + [Callback(EV_TX_CMPLT)] else [])
      ensures View() == AfterPhase(FlagsOf(regs.SR1), old(View()))
      ensures BtfCloses(FlagsOf(regs.SR1), old(View())) ==>
        txBuffer == null && regs.CR2 == ClearBits(ClearBits(old(regs.CR2), CR2_ITBUFEN), CR2_ITEVTEN)
      ensures !BtfCloses(FlagsOf(regs.SR1), old(View())) ==>
        txBuffer == old(txBuffer) && txPos == old(txPos) && regs.CR2 == old(regs.CR2)
    {
      if regs.SR1 & SR1_BTF != 0 {
        EvByteTransferFinished();
      }
    }

    /** Step 5 as the handler gates it on SR1.STOPF. */
    method StopfStep()
      requires Valid()
      modifies this`trace
      ensures trace == old(trace) + CallbackIf(FlagsOf(regs.SR1).stopf, EV_STOP)
    {
      if regs.SR1 & SR1_STOPF != 0 {
        EvStopDetected();
      }
    }

    /** Steps 6 and 7 of I2C_EV_IRQHandling, taken only with the buffer interrupt enabled. */
    method EvDataFlags(bufferEnabled: bool)
      requires Valid()
      modifies this`trace, this`txPos, this`txLen, this`rxLen, this`rxPos, this`rxBuffer, this`rxSize, this`txRxState,
        regs`CR2, regs`DR, rxBuffer
      ensures Valid()
      ensures !bufferEnabled ==> unchanged(this) && unchanged(regs)
      ensures trace == old(trace)
        + (if bufferEnabled then DataSteps(FlagsOf(regs.SR1), Master(), regs.SR2 & SR2_TRA != 0, old(View()), LowByte(old(regs.DR)))
           else [])
      ensures txRxState == (if bufferEnabled && RxneCloses(FlagsOf(regs.SR1), Master(), old(View())) then READY else old(txRxState))
      ensures bufferEnabled && Master() && regs.SR1 & SR1_TXE != 0 && old(txRxState == BUSY_IN_TX && txLen > 0) ==>
        regs.DR == old(TxNext()) && txLen == old(txLen) - 1 && txPos == old(txPos) + 1
      ensures bufferEnabled && Master() && regs.SR1 & SR1_RXNE != 0 && old(txRxState) == BUSY_IN_RX && old(rxSize) >= 1 ==>
        old(rxBuffer)[..] == old(rxBuffer[..])[old(rxPos) := LowByte(old(regs.DR))]
    {
      ghost var f := FlagsOf(regs.SR1);
      ghost var x := View();
      ghost var t0 := trace;
      ghost var m := Master();
      ghost var tra := regs.SR2 & SR2_TRA != 0;
      TxeStep(bufferEnabled);
      ghost var y := View();
      RxneDataFrame(f, m, tra, y, x, LowByte(regs.DR), LowByte(old(regs.DR)));
      RxneStep(bufferEnabled);
      if bufferEnabled {
        Regroup2(t0, TxeDataSteps(f, m, tra, x), RxneDataSteps(f, m, tra, x, LowByte(old(regs.DR))));
      }
    }

    /** Step 6 as the handler gates it on ITBUFEN and SR1.TXE. */
    method TxeStep(bufferEnabled: bool)
      requires Valid()
      modifies this`txLen, this`txPos, this`trace, regs`DR
      ensures Valid()
      ensures trace == old(trace)
        + (if bufferEnabled then TxeDataSteps(FlagsOf(regs.SR1), Master(), regs.SR2 & SR2_TRA != 0, old(View())) else [])
      ensures bufferEnabled && Master() && regs.SR1 & SR1_TXE != 0 && old(txRxState == BUSY_IN_TX && txLen > 0) ==>
        regs.DR == old(TxNext()) && txLen == old(txLen) - 1 && txPos == old(txPos) + 1
      ensures !(bufferEnabled && Master() && regs.SR1 & SR1_TXE != 0 && old(txRxState == BUSY_IN_TX && txLen > 0)) ==>
        regs.DR == old(regs.DR) && txLen == old(txLen) && txPos == old(txPos)
      ensures !bufferEnabled ==> unchanged(this) && unchanged(regs)
    {
      if bufferEnabled && regs.SR1 & SR1_TXE != 0 {
        EvTransmitEmpty();
      }
    }

    /** Step 7 as the handler gates it on ITBUFEN and SR1.RXNE. */
    method RxneStep(bufferEnabled: bool)
      requires Valid()
      modifies this`rxLen, this`rxPos, this`rxBuffer, this`rxSize, this`txRxState, this`trace, regs`CR2, rxBuffer
      ensures Valid()
      ensures trace == old(trace)
        + (if bufferEnabled then RxneDataSteps(FlagsOf(regs.SR1), Master(), regs.SR2 & SR2_TRA != 0, old(View()), LowByte(regs.DR))
           else [])
      ensures txRxState == (if bufferEnabled && RxneCloses(FlagsOf(regs.SR1), Master(), old(View())) then READY else old(txRxState))
      ensures bufferEnabled && Master() && regs.SR1 & SR1_RXNE != 0 && old(txRxState) == BUSY_IN_RX && old(rxSize) >= 1 ==>
        old(rxBuffer)[..] == old(rxBuffer[..])[old(rxPos) := LowByte(regs.DR)]
      ensures !bufferEnabled ==> unchanged(this) && unchanged(regs)
    {
      if bufferEnabled && regs.SR1 & SR1_RXNE != 0 {
        EvReceiveNotEmpty();
      }
    }

    /** One step of I2C_ER_IRQHandling: clear and report one error flag. */
    method ReportError(flag: bv32, code: nat, enabled: bool)
      modifies this`trace, regs`SR1
      ensures enabled ==>
        regs.SR1 == ClearBits(old(regs.SR1), flag) && trace == old(trace) + ErrorIf(old(regs.SR1), flag, code)
      ensures !enabled ==> regs.SR1 == old(regs.SR1) && trace == old(trace)
    {
      if regs.SR1 & flag != 0 && enabled {
        regs.SR1 := ClearBits(regs.SR1, flag);
        Log(Callback(code));
      } else if enabled {
        ClearUnset(regs.SR1, flag);
      }
    }

    /** I2C_ER_IRQHandling: with ITERREN on, clears and reports each set error flag in turn. */
    method ErIrqHandling()
      modifies this`trace, regs`SR1
      ensures regs.CR2 & CR2_ITERREN != 0 ==>
        regs.SR1 == ClearBits(old(regs.SR1), ERROR_FLAGS) && trace == old(trace) + ErrorCallbacks(old(regs.SR1))
      ensures regs.CR2 & CR2_ITERREN == 0 ==> regs.SR1 == old(regs.SR1) && trace == old(trace)
    {
      var enabled := regs.CR2 & CR2_ITERREN != 0;
      ghost var s0 := regs.SR1;
      ErrorPassCallbacks(s0);
      ErrorPassClears(s0);
      ReportError(SR1_BERR, ERROR_BERR, enabled);
      ReportError(SR1_ARLO, ERROR_ARLO, enabled);
      ReportError(SR1_AF, ERROR_AF, enabled);
      ReportError(SR1_OVR, ERROR_OVR, enabled);
      ReportError(SR1_TIMEOUT, ERROR_TIMEOUT, enabled);
      ghost var s1 := ClearBits(s0, SR1_BERR);
      ghost var s2 := ClearBits(s1, SR1_ARLO);
      ghost var s3 := ClearBits(s2, SR1_AF);
      ghost var s4 := ClearBits(s3, SR1_OVR);
      Regroup5(old(trace), ErrorIf(s0, SR1_BERR, ERROR_BERR), ErrorIf(s1, SR1_ARLO, ERROR_ARLO),
        ErrorIf(s2, SR1_AF, ERROR_AF), ErrorIf(s3, SR1_OVR, ERROR_OVR), ErrorIf(s4, SR1_TIMEOUT, ERROR_TIMEOUT));
    }
  }
}
