/**
 * `Drivers/bsp/ds1307.c`: the DS1307 adapter over the vendor HAL. The HAL
 * takes the 8-bit address form; receives OR in the read bit. A transfer
 * that returns `HAL_ERROR` ends in `Error_Handler`, which never returns;
 * busy and timeout results are ignored.
 */
module Ds1307Hal {
  import opened Bits
  import opened I2cBus
  import opened Ds1307

  /** The clock's address as the HAL takes it: the 7-bit address 0x68 shifted left. */
  const DS1307_I2C_ADDR: byte := 0xD0

  /** `DS1307_I2C_ADDR | 0x01`. */
  function ReadAddr(addr: byte): (a: byte)
    ensures a % 2 == 1 && a / 2 == addr / 2
  {
    if addr % 2 == 0 then addr + 1 else addr
  }

  const RX_ADDR: byte := ReadAddr(DS1307_I2C_ADDR)

  /** A run of `plan` from the bus state at entry: its log, and whether it halted. */
  ghost predicate Ran(bus: Bus, plan: seq<Op>, log0: seq<Transfer>, results0: seq<Status>, replies0: seq<byte>)
    reads bus
  {
    Reached(bus.log, bus.halted, bus.results, bus.replies, plan, log0, results0, replies0)
  }

  /** The bus state `log`, `halted`, `results`, `replies` is where a run of `plan` ends. */
  ghost predicate Reached(log: seq<Transfer>, halted: bool, results: seq<Status>, replies: seq<byte>,
                          plan: seq<Op>, log0: seq<Transfer>, results0: seq<Status>, replies0: seq<byte>)
  {
    log == log0 + HalRun(plan, results0, replies0) &&
    halted == Halts(plan, results0) &&
    (!halted ==> results == Skip(results0, |plan|) && replies == Drop(replies0, Received(plan)))
  }

  /** `ds1307_write(val, reg)`. */
  method Write(bus: Bus, val: byte, reg: byte)
    requires !bus.halted
    modifies bus`log, bus`results, bus`halted
    ensures Ran(bus, WritePlan(DS1307_I2C_ADDR, reg, val), old(bus.log), old(bus.results), old(bus.replies))
    ensures bus.replies == old(bus.replies)
  {
    var ret := bus.HalTransmit(DS1307_I2C_ADDR, [reg, val]);
    if ret == HalError {
      bus.Stop();
    }
    HalStep(TxOp(DS1307_I2C_ADDR, [reg, val], true), old(bus.results), old(bus.replies));
  }

  /** `ds1307_read(reg)`: the register pointer, then one byte received from the read address. */
  method Read(bus: Bus, reg: byte) returns (rx: byte)
    requires !bus.halted
    modifies bus`log, bus`results, bus`replies, bus`halted
    ensures Ran(bus, ReadPlan(DS1307_I2C_ADDR, RX_ADDR, reg), old(bus.log), old(bus.results), old(bus.replies))
    ensures !bus.halted ==> rx == Reply(old(bus.replies), 0)
  {
    ghost var tx, rxOp := TxOp(DS1307_I2C_ADDR, [reg], true), RxOp(RX_ADDR, 1);
    assert ReadPlan(DS1307_I2C_ADDR, RX_ADDR, reg) == [tx] + [rxOp];
    HalStep(tx, old(bus.results), old(bus.replies));
    var ret := bus.HalTransmit(DS1307_I2C_ADDR, [reg]);
    if ret == HalError {
      bus.Stop();
      HalRunHalted([tx], [rxOp], old(bus.results), old(bus.replies));
      return 0;
    }
    HalStep(rxOp, bus.results, bus.replies);
    HalThen([tx], [rxOp], old(bus.results), old(bus.replies), old(bus.log));
    SkipSkip(old(bus.results), 1, 1);
    ReceivedConcat([tx], [rxOp]);
    var data;
    ret, data := bus.HalReceive(RX_ADDR, 1);
    if ret == HalError {
      bus.Stop();
    }
    rx := data[0];
  }
  /** A run of `p` without halt, then a run of `q` from where it stopped, is a run of `p + q`. */
  lemma RanThen(bus: Bus, p: seq<Op>, q: seq<Op>, log0: seq<Transfer>, results0: seq<Status>, replies0: seq<byte>,
                logMid: seq<Transfer>, resultsMid: seq<Status>, repliesMid: seq<byte>)
    requires !Halts(p, results0) && logMid == log0 + HalRun(p, results0, replies0)
    requires resultsMid == Skip(results0, |p|) && repliesMid == Drop(replies0, Received(p))
    requires Ran(bus, q, logMid, resultsMid, repliesMid)
    ensures Ran(bus, p + q, log0, results0, replies0)
  {
    ReachedThen(bus.log, bus.halted, bus.results, bus.replies, p, q, log0, results0, replies0, logMid, resultsMid, repliesMid);
  }

  lemma ReachedThen(log: seq<Transfer>, halted: bool, results: seq<Status>, replies: seq<byte>,
                    p: seq<Op>, q: seq<Op>, log0: seq<Transfer>, results0: seq<Status>, replies0: seq<byte>,
                    logMid: seq<Transfer>, resultsMid: seq<Status>, repliesMid: seq<byte>)
    requires !Halts(p, results0) && logMid == log0 + HalRun(p, results0, replies0)
    requires resultsMid == Skip(results0, |p|) && repliesMid == Drop(replies0, Received(p))
    requires Reached(log, halted, results, replies, q, logMid, resultsMid, repliesMid)
    ensures Reached(log, halted, results, replies, p + q, log0, results0, replies0)
  {
    HalThen(p, q, results0, replies0, log0);
    SkipSkip(results0, |p|, |q|);
    ReceivedConcat(p, q);
    DropDrop(replies0, Received(p), Received(q));
  }

  /** A run of `p` that halted is a run of `p + q`: nothing of `q` happens. */
  lemma RanHalted(bus: Bus, p: seq<Op>, q: seq<Op>, log0: seq<Transfer>, results0: seq<Status>, replies0: seq<byte>)
    requires Ran(bus, p, log0, results0, replies0) && bus.halted
    ensures Ran(bus, p + q, log0, results0, replies0)
  {
    HalRunHalted(p, q, results0, replies0);
  }

  /** `ds1307_init`: clock halt cleared, then the seconds register read back; returns its bit 7. */
  method Init(bus: Bus) returns (clockState: byte)
    requires !bus.halted
    modifies bus`log, bus`results, bus`replies, bus`halted
    ensures Ran(bus, InitPlan(DS1307_I2C_ADDR, RX_ADDR), old(bus.log), old(bus.results), old(bus.replies))
    ensures !bus.halted ==> clockState == ClockHalt(Reply(old(bus.replies), 0))
  {
    ghost var w, r := WritePlan(DS1307_I2C_ADDR, DS1307_ADDR_SEC, 0), ReadPlan(DS1307_I2C_ADDR, RX_ADDR, DS1307_ADDR_SEC);
    Write(bus, 0x00, DS1307_ADDR_SEC);
    if bus.halted {
      RanHalted(bus, w, r, old(bus.log), old(bus.results), old(bus.replies));
      return 0;
    }
    ghost var logM, resM, repM := bus.log, bus.results, bus.replies;
    var sec := Read(bus, DS1307_ADDR_SEC);
    RanThen(bus, w, r, old(bus.log), old(bus.results), old(bus.replies), logM, resM, repM);
    PlanReplies(DS1307_I2C_ADDR, RX_ADDR, DS1307_ADDR_SEC, 0);
    clockState := (sec / 0x80) % 2;
  }

  /** `ds1307_set_current_time`: seconds (clock halt forced to 0), minutes, hours with the format bits. */
  method SetCurrentTime(bus: Bus, t: RtcTime)
    requires !bus.halted
    modifies bus`log, bus`results, bus`halted
    ensures Ran(bus, SetTimePlan(DS1307_I2C_ADDR, t), old(bus.log), old(bus.results), old(bus.replies))
  {
    ghost var regs := EncodeTime(t);
    ghost var w1, w2, w3 := WritePlan(DS1307_I2C_ADDR, DS1307_ADDR_SEC, regs[0]),
      WritePlan(DS1307_I2C_ADDR, DS1307_ADDR_MIN, regs[1]), WritePlan(DS1307_I2C_ADDR, DS1307_ADDR_HOUR, regs[2]);
    assert w1 + w2 + w3 == w1 + (w2 + w3);
    var seconds := BinaryToBcd(t.seconds);
    var hours := BinaryToBcd(t.hours);
    seconds := WithoutBit(seconds, 0x80);
    Write(bus, seconds, DS1307_ADDR_SEC);
    if bus.halted {
      RanHalted(bus, w1, w2 + w3, old(bus.log), old(bus.results), old(bus.replies));
      return;
    }
    ghost var logM, resM, repM := bus.log, bus.results, bus.replies;
    Write(bus, BinaryToBcd(t.minutes), DS1307_ADDR_MIN);
    RanThen(bus, w1, w2, old(bus.log), old(bus.results), old(bus.replies), logM, resM, repM);
    if bus.halted {
      RanHalted(bus, w1 + w2, w3, old(bus.log), old(bus.results), old(bus.replies));
      return;
    }
    if t.timeFormat == TIME_FORMAT_24HRS {
      hours := WithoutBit(hours, 0x40);
    } else {
      hours := WithBit(hours, 0x40);
      hours := if t.timeFormat == TIME_FORMAT_12HRS_PM then WithBit(hours, 0x20) else WithoutBit(hours, 0x20);
    }
    logM, resM, repM := bus.log, bus.results, bus.replies;
    Write(bus, hours, DS1307_ADDR_HOUR);
    RanThen(bus, w1 + w2, w3, old(bus.log), old(bus.results), old(bus.replies), logM, resM, repM);
  }
  /** `ds1307_get_current_time`: three register reads decoded as seconds, minutes and hours. */
  method GetCurrentTime(bus: Bus) returns (t: RtcTime)
    requires !bus.halted
    modifies bus`log, bus`results, bus`replies, bus`halted
    ensures Ran(bus, GetTimePlan(DS1307_I2C_ADDR, RX_ADDR), old(bus.log), old(bus.results), old(bus.replies))
    ensures !bus.halted ==> t == DecodeTime(Reply(old(bus.replies), 0), Reply(old(bus.replies), 1), Reply(old(bus.replies), 2))
  {
    ghost var r0 := old(bus.replies);
    ghost var p1, p2, p3 := ReadPlan(DS1307_I2C_ADDR, RX_ADDR, DS1307_ADDR_SEC),
      ReadPlan(DS1307_I2C_ADDR, RX_ADDR, DS1307_ADDR_MIN), ReadPlan(DS1307_I2C_ADDR, RX_ADDR, DS1307_ADDR_HOUR);
    assert p1 + p2 + p3 == p1 + (p2 + p3);
    PlanReplies(DS1307_I2C_ADDR, RX_ADDR, DS1307_ADDR_SEC, 0);
    PlanReplies(DS1307_I2C_ADDR, RX_ADDR, DS1307_ADDR_MIN, 0);
    ReceivedConcat(p1, p2);
    var seconds := Read(bus, DS1307_ADDR_SEC);
    if bus.halted {
      RanHalted(bus, p1, p2 + p3, old(bus.log), old(bus.results), r0);
      return RtcTime(0, 0, 0, 0);
    }
    seconds := WithoutBit(seconds, 0x80);
    var secs := BcdToBinary(seconds);
    ghost var logM, resM, repM := bus.log, bus.results, bus.replies;
    var min := Read(bus, DS1307_ADDR_MIN);
    RanThen(bus, p1, p2, old(bus.log), old(bus.results), r0, logM, resM, repM);
    if bus.halted {
      RanHalted(bus, p1 + p2, p3, old(bus.log), old(bus.results), r0);
      return RtcTime(0, 0, 0, 0);
    }
    DropReply(r0, 1, 0);
    logM, resM, repM := bus.log, bus.results, bus.replies;
    var hours := Read(bus, DS1307_ADDR_HOUR);
    RanThen(bus, p1 + p2, p3, old(bus.log), old(bus.results), r0, logM, resM, repM);
    DropReply(r0, 2, 0);
    var format;
    if !HasBit(hours, 0x40) {
      format := TIME_FORMAT_24HRS;
    } else {
      format := if HasBit(hours, 0x20) then TIME_FORMAT_12HRS_PM else TIME_FORMAT_12HRS_AM;
      hours := WithoutBit(WithoutBit(hours, 0x20), 0x40);
    }
    t := RtcTime(secs, BcdToBinary(min), BcdToBinary(hours), format);
  }

  /** `ds1307_set_current_date`: day of the week, date, month, year, each in BCD. */
  method SetCurrentDate(bus: Bus, d: RtcDate)
    requires !bus.halted
    modifies bus`log, bus`results, bus`halted
    ensures Ran(bus, SetDatePlan(DS1307_I2C_ADDR, d), old(bus.log), old(bus.results), old(bus.replies))
  {
    ghost var regs := EncodeDate(d);
    ghost var w1, w2 := WritePlan(DS1307_I2C_ADDR, DS1307_ADDR_DAY, regs[0]), WritePlan(DS1307_I2C_ADDR, DS1307_ADDR_DATE, regs[1]);
    ghost var w3, w4 := WritePlan(DS1307_I2C_ADDR, DS1307_ADDR_MONTH, regs[2]), WritePlan(DS1307_I2C_ADDR, DS1307_ADDR_YEAR, regs[3]);
    assert w1 + w2 + w3 + w4 == w1 + (w2 + w3 + w4) == (w1 + w2) + (w3 + w4);
    Write(bus, BinaryToBcd(d.day), DS1307_ADDR_DAY);
    if bus.halted {
      RanHalted(bus, w1, w2 + w3 + w4, old(bus.log), old(bus.results), old(bus.replies));
      return;
    }
    ghost var logM, resM, repM := bus.log, bus.results, bus.replies;
    Write(bus, BinaryToBcd(d.date), DS1307_ADDR_DATE);
    RanThen(bus, w1, w2, old(bus.log), old(bus.results), old(bus.replies), logM, resM, repM);
    if bus.halted {
      RanHalted(bus, w1 + w2, w3 + w4, old(bus.log), old(bus.results), old(bus.replies));
      return;
    }
    logM, resM, repM := bus.log, bus.results, bus.replies;
    Write(bus, BinaryToBcd(d.month), DS1307_ADDR_MONTH);
    RanThen(bus, w1 + w2, w3, old(bus.log), old(bus.results), old(bus.replies), logM, resM, repM);
    if bus.halted {
      RanHalted(bus, w1 + w2 + w3, w4, old(bus.log), old(bus.results), old(bus.replies));
      return;
    }
    logM, resM, repM := bus.log, bus.results, bus.replies;
    Write(bus, BinaryToBcd(d.year), DS1307_ADDR_YEAR);
    RanThen(bus, w1 + w2 + w3, w4, old(bus.log), old(bus.results), old(bus.replies), logM, resM, repM);
  }

  /** `ds1307_get_current_date`: four register reads, each decoded from BCD. */
  method GetCurrentDate(bus: Bus) returns (d: RtcDate)
    requires !bus.halted
    modifies bus`log, bus`results, bus`replies, bus`halted
    ensures Ran(bus, GetDatePlan(DS1307_I2C_ADDR, RX_ADDR), old(bus.log), old(bus.results), old(bus.replies))
    ensures !bus.halted ==> d == DecodeDate(Reply(old(bus.replies), 0), Reply(old(bus.replies), 1),
      Reply(old(bus.replies), 2), Reply(old(bus.replies), 3))
  {
    ghost var r0 := old(bus.replies);
    ghost var p1, p2 := ReadPlan(DS1307_I2C_ADDR, RX_ADDR, DS1307_ADDR_DAY), ReadPlan(DS1307_I2C_ADDR, RX_ADDR, DS1307_ADDR_DATE);
    ghost var p3, p4 := ReadPlan(DS1307_I2C_ADDR, RX_ADDR, DS1307_ADDR_MONTH), ReadPlan(DS1307_I2C_ADDR, RX_ADDR, DS1307_ADDR_YEAR);
    assert p1 + p2 + p3 + p4 == p1 + (p2 + p3 + p4) == (p1 + p2) + (p3 + p4);
    PlanReplies(DS1307_I2C_ADDR, RX_ADDR, DS1307_ADDR_DAY, 0);
    PlanReplies(DS1307_I2C_ADDR, RX_ADDR, DS1307_ADDR_DATE, 0);
    PlanReplies(DS1307_I2C_ADDR, RX_ADDR, DS1307_ADDR_MONTH, 0);
    ReceivedConcat(p1, p2);
    ReceivedConcat(p1 + p2, p3);
    var day := Read(bus, DS1307_ADDR_DAY);
    if bus.halted {
      RanHalted(bus, p1, p2 + p3 + p4, old(bus.log), old(bus.results), r0);
      return RtcDate(0, 0, 0, 0);
    }
    ghost var logM, resM, repM := bus.log, bus.results, bus.replies;
    var date := Read(bus, DS1307_ADDR_DATE);
    RanThen(bus, p1, p2, old(bus.log), old(bus.results), r0, logM, resM, repM);
    if bus.halted {
      RanHalted(bus, p1 + p2, p3 + p4, old(bus.log), old(bus.results), r0);
      return RtcDate(0, 0, 0, 0);
    }
    DropReply(r0, 1, 0);
    logM, resM, repM := bus.log, bus.results, bus.replies;
    var month := Read(bus, DS1307_ADDR_MONTH);
    RanThen(bus, p1 + p2, p3, old(bus.log), old(bus.results), r0, logM, resM, repM);
    if bus.halted {
      RanHalted(bus, p1 + p2 + p3, p4, old(bus.log), old(bus.results), r0);
      return RtcDate(0, 0, 0, 0);
    }
    DropReply(r0, 2, 0);
    logM, resM, repM := bus.log, bus.results, bus.replies;
    var year := Read(bus, DS1307_ADDR_YEAR);
    RanThen(bus, p1 + p2 + p3, p4, old(bus.log), old(bus.results), r0, logM, resM, repM);
    DropReply(r0, 3, 0);
    d := RtcDate(BcdToBinary(day), BcdToBinary(date), BcdToBinary(month), BcdToBinary(year));
  }
}
