/**
 * `bsp/ds1307.c`: the DS1307 adapter over the register-level driver's
 * blocking transfers. Every transfer ends in STOP and nothing can fail.
 */
module Ds1307Driver {
  import opened Bits
  import opened I2cBus
  import opened Ds1307

  /** The clock's 7-bit address; the driver shifts it and adds the R/W bit. */
  const DS1307_I2C_ADDR: byte := 0x68

  /** `ds1307_write(val, reg)`. */
  method Write(bus: Bus, val: byte, reg: byte)
    modifies bus`log
    ensures bus.log == old(bus.log) + DriverRun(WritePlan(DS1307_I2C_ADDR, reg, val), old(bus.replies))
  {
    bus.Transmit(DS1307_I2C_ADDR, [reg, val], true);
  }

  /** `ds1307_read(reg)`: the register pointer, then one byte. */
  method Read(bus: Bus, reg: byte) returns (rx: byte)
    modifies bus`log, bus`replies
    ensures rx == Reply(old(bus.replies), 0) && bus.replies == Drop(old(bus.replies), 1)
    ensures bus.log == old(bus.log) + DriverRun(ReadPlan(DS1307_I2C_ADDR, DS1307_I2C_ADDR, reg), old(bus.replies))
  {
    bus.Transmit(DS1307_I2C_ADDR, [reg], true);
    var data := bus.Receive(DS1307_I2C_ADDR, 1, true);
    rx := data[0];
    Seqs.Snoc2(old(bus.log), Send(DS1307_I2C_ADDR, [reg], true), Recv(DS1307_I2C_ADDR, data, true));
  }

  /** Two plans run one after the other, the second on the replies the first left. */
  lemma Then(p: seq<Op>, q: seq<Op>, replies: seq<byte>, log: seq<Transfer>)
    ensures log + DriverRun(p, replies) + DriverRun(q, Drop(replies, Received(p))) == log + DriverRun(p + q, replies)
  {
    DriverRunConcat(p, q, replies);
  }

  /**
   * `ds1307_init` after the pins and the controller are configured: clock
   * halt cleared, then the seconds register read back; returns its bit 7.
   */
  method Init(bus: Bus) returns (clockState: byte)
    modifies bus`log, bus`replies
    ensures clockState == ClockHalt(Reply(old(bus.replies), 0))
    ensures bus.log == old(bus.log) + DriverRun(InitPlan(DS1307_I2C_ADDR, DS1307_I2C_ADDR), old(bus.replies))
    ensures bus.replies == Drop(old(bus.replies), 1)
  {
    Write(bus, 0x00, DS1307_ADDR_SEC);
    var sec := Read(bus, DS1307_ADDR_SEC);
    clockState := (sec / 0x80) % 2;
    Then(WritePlan(DS1307_I2C_ADDR, DS1307_ADDR_SEC, 0), ReadPlan(DS1307_I2C_ADDR, DS1307_I2C_ADDR, DS1307_ADDR_SEC),
      old(bus.replies), old(bus.log));
  }

  /** `ds1307_set_current_time`: seconds (clock halt forced to 0), minutes, hours with the format bits. */
  method SetCurrentTime(bus: Bus, t: RtcTime)
    modifies bus`log
    ensures bus.log == old(bus.log) + DriverRun(SetTimePlan(DS1307_I2C_ADDR, t), old(bus.replies))
  {
    var seconds := BinaryToBcd(t.seconds);
    var hours := BinaryToBcd(t.hours);
    seconds := WithoutBit(seconds, 0x80);
    Write(bus, seconds, DS1307_ADDR_SEC);
    Write(bus, BinaryToBcd(t.minutes), DS1307_ADDR_MIN);
    if t.timeFormat == TIME_FORMAT_24HRS {
      hours := WithoutBit(hours, 0x40);
    } else {
      hours := WithBit(hours, 0x40);
      hours := if t.timeFormat == TIME_FORMAT_12HRS_PM then WithBit(hours, 0x20) else WithoutBit(hours, 0x20);
    }
    Write(bus, hours, DS1307_ADDR_HOUR);
    ghost var r := old(bus.replies);
    ghost var w1, w2, w3 := WritePlan(DS1307_I2C_ADDR, DS1307_ADDR_SEC, seconds),
      WritePlan(DS1307_I2C_ADDR, DS1307_ADDR_MIN, BinaryToBcd(t.minutes)), WritePlan(DS1307_I2C_ADDR, DS1307_ADDR_HOUR, hours);
    Then(w1, w2, r, old(bus.log));
    Then(w1 + w2, w3, r, old(bus.log));
  }

  /** `ds1307_get_current_time`: three register reads decoded as seconds, minutes and hours. */
  method GetCurrentTime(bus: Bus) returns (t: RtcTime)
    modifies bus`log, bus`replies
    ensures t == DecodeTime(Reply(old(bus.replies), 0), Reply(old(bus.replies), 1), Reply(old(bus.replies), 2))
    ensures bus.log == old(bus.log) + DriverRun(GetTimePlan(DS1307_I2C_ADDR, DS1307_I2C_ADDR), old(bus.replies))
    ensures bus.replies == Drop(old(bus.replies), 3)
  {
    var seconds := Read(bus, DS1307_ADDR_SEC);
    seconds := WithoutBit(seconds, 0x80);
    var secs := BcdToBinary(seconds);
    var min := Read(bus, DS1307_ADDR_MIN);
    var hours := Read(bus, DS1307_ADDR_HOUR);
    var format;
    if !HasBit(hours, 0x40) {
      format := TIME_FORMAT_24HRS;
    } else {
      format := if HasBit(hours, 0x20) then TIME_FORMAT_12HRS_PM else TIME_FORMAT_12HRS_AM;
      hours := WithoutBit(WithoutBit(hours, 0x20), 0x40);
    }
    t := RtcTime(secs, BcdToBinary(min), BcdToBinary(hours), format);
    ghost var r := old(bus.replies);
    ThreeReads(r, DS1307_ADDR_SEC, DS1307_ADDR_MIN, DS1307_ADDR_HOUR, old(bus.log));
  }

  /** Three register reads in a row consume three replies, in order. */
  lemma ThreeReads(r: seq<byte>, a: byte, b: byte, c: byte, log: seq<Transfer>)
    ensures Reply(Drop(r, 1), 0) == Reply(r, 1) && Reply(Drop(Drop(r, 1), 1), 0) == Reply(r, 2)
    ensures Drop(Drop(Drop(r, 1), 1), 1) == Drop(r, 3)
    ensures log + DriverRun(ReadPlan(DS1307_I2C_ADDR, DS1307_I2C_ADDR, a), r)
      + DriverRun(ReadPlan(DS1307_I2C_ADDR, DS1307_I2C_ADDR, b), Drop(r, 1))
      + DriverRun(ReadPlan(DS1307_I2C_ADDR, DS1307_I2C_ADDR, c), Drop(Drop(r, 1), 1))
      == log + DriverRun(ReadPlan(DS1307_I2C_ADDR, DS1307_I2C_ADDR, a) + ReadPlan(DS1307_I2C_ADDR, DS1307_I2C_ADDR, b)
        + ReadPlan(DS1307_I2C_ADDR, DS1307_I2C_ADDR, c), r)
  {
    DropReply(r, 1, 0);
    DropDrop(r, 1, 1);
    DropReply(r, 2, 0);
    DropDrop(r, 2, 1);
    var pa, pb, pc := ReadPlan(DS1307_I2C_ADDR, DS1307_I2C_ADDR, a), ReadPlan(DS1307_I2C_ADDR, DS1307_I2C_ADDR, b),
      ReadPlan(DS1307_I2C_ADDR, DS1307_I2C_ADDR, c);
    PlanReplies(DS1307_I2C_ADDR, DS1307_I2C_ADDR, a, 0);
    PlanReplies(DS1307_I2C_ADDR, DS1307_I2C_ADDR, b, 0);
    ReceivedConcat(pa, pb);
    Then(pa, pb, r, log);
    Then(pa + pb, pc, r, log);
  }
  /** `ds1307_set_current_date`: day of the week, date, month, year, each in BCD. */
  method SetCurrentDate(bus: Bus, d: RtcDate)
    modifies bus`log
    ensures bus.log == old(bus.log) + DriverRun(SetDatePlan(DS1307_I2C_ADDR, d), old(bus.replies))
  {
    Write(bus, BinaryToBcd(d.day), DS1307_ADDR_DAY);
    Write(bus, BinaryToBcd(d.date), DS1307_ADDR_DATE);
    Write(bus, BinaryToBcd(d.month), DS1307_ADDR_MONTH);
    Write(bus, BinaryToBcd(d.year), DS1307_ADDR_YEAR);
    ghost var r, regs := old(bus.replies), EncodeDate(d);
    ghost var w1, w2 := WritePlan(DS1307_I2C_ADDR, DS1307_ADDR_DAY, regs[0]), WritePlan(DS1307_I2C_ADDR, DS1307_ADDR_DATE, regs[1]);
    ghost var w3, w4 := WritePlan(DS1307_I2C_ADDR, DS1307_ADDR_MONTH, regs[2]), WritePlan(DS1307_I2C_ADDR, DS1307_ADDR_YEAR, regs[3]);
    Then(w1, w2, r, old(bus.log));
    Then(w1 + w2, w3, r, old(bus.log));
    Then(w1 + w2 + w3, w4, r, old(bus.log));
  }

  /** `ds1307_get_current_date`: four register reads, each decoded from BCD. */
  method GetCurrentDate(bus: Bus) returns (d: RtcDate)
    modifies bus`log, bus`replies
    ensures d == DecodeDate(Reply(old(bus.replies), 0), Reply(old(bus.replies), 1), Reply(old(bus.replies), 2), Reply(old(bus.replies), 3))
    ensures bus.log == old(bus.log) + DriverRun(GetDatePlan(DS1307_I2C_ADDR, DS1307_I2C_ADDR), old(bus.replies))
    ensures bus.replies == Drop(old(bus.replies), 4)
  {
    var day := Read(bus, DS1307_ADDR_DAY);
    var date := Read(bus, DS1307_ADDR_DATE);
    var month := Read(bus, DS1307_ADDR_MONTH);
    var year := Read(bus, DS1307_ADDR_YEAR);
    d := RtcDate(BcdToBinary(day), BcdToBinary(date), BcdToBinary(month), BcdToBinary(year));
    ghost var r := old(bus.replies);
    ThreeReads(r, DS1307_ADDR_DAY, DS1307_ADDR_DATE, DS1307_ADDR_MONTH, old(bus.log));
    ghost var p3 := ReadPlan(DS1307_I2C_ADDR, DS1307_I2C_ADDR, DS1307_ADDR_DAY) + ReadPlan(DS1307_I2C_ADDR, DS1307_I2C_ADDR, DS1307_ADDR_DATE)
      + ReadPlan(DS1307_I2C_ADDR, DS1307_I2C_ADDR, DS1307_ADDR_MONTH);
    ReadsReceived(DS1307_ADDR_DAY, DS1307_ADDR_DATE, DS1307_ADDR_MONTH);
    DropDrop(r, 2, 1);
    DropReply(r, 3, 0);
    DropDrop(r, 3, 1);
    Then(p3, ReadPlan(DS1307_I2C_ADDR, DS1307_I2C_ADDR, DS1307_ADDR_YEAR), r, old(bus.log));
  }

  lemma ReadsReceived(a: byte, b: byte, c: byte)
    ensures Received(ReadPlan(DS1307_I2C_ADDR, DS1307_I2C_ADDR, a) + ReadPlan(DS1307_I2C_ADDR, DS1307_I2C_ADDR, b)
      + ReadPlan(DS1307_I2C_ADDR, DS1307_I2C_ADDR, c)) == 3
  {
    var pa, pb, pc := ReadPlan(DS1307_I2C_ADDR, DS1307_I2C_ADDR, a), ReadPlan(DS1307_I2C_ADDR, DS1307_I2C_ADDR, b),
      ReadPlan(DS1307_I2C_ADDR, DS1307_I2C_ADDR, c);
    PlanReplies(DS1307_I2C_ADDR, DS1307_I2C_ADDR, a, 0);
    PlanReplies(DS1307_I2C_ADDR, DS1307_I2C_ADDR, b, 0);
    PlanReplies(DS1307_I2C_ADDR, DS1307_I2C_ADDR, c, 0);
    ReceivedConcat(pa, pb);
    ReceivedConcat(pa + pb, pc);
  }
}
