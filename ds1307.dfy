/**
 * The DS1307 real-time clock as both of its adapters drive it: BCD
 * conversion, the clock-halt / 12-24 hour / PM bit packing of the time
 * registers, and the single-register transfer framing. The custom driver
 * (`bsp/ds1307.c`) and the HAL one (`Drivers/bsp/ds1307.c`) share this
 * specification, differing only in the addresses put on the bus.
 *
 * `ds1307.h` is not part of this model: the register addresses follow the
 * DS1307 register map, and the time-format codes are those the decoder
 * relies on (it stores the PM bit itself as the format, so 12-hour AM is 0
 * and PM is 1).
 */
module Ds1307 {
  import opened Bits
  import opened I2cBus

  const DS1307_ADDR_SEC: byte := 0x00
  const DS1307_ADDR_MIN: byte := 0x01
  const DS1307_ADDR_HOUR: byte := 0x02
  const DS1307_ADDR_DAY: byte := 0x03
  const DS1307_ADDR_DATE: byte := 0x04
  const DS1307_ADDR_MONTH: byte := 0x05
  const DS1307_ADDR_YEAR: byte := 0x06

  const TIME_FORMAT_12HRS_AM: byte := 0
  const TIME_FORMAT_12HRS_PM: byte := 1
  const TIME_FORMAT_24HRS: byte := 2

  /** `RTC_time_t`. */
  datatype RtcTime = RtcTime(seconds: byte, minutes: byte, hours: byte, timeFormat: byte)

  /** `RTC_date_t`: `day` is the day of the week. */
  datatype RtcDate = RtcDate(day: byte, date: byte, month: byte, year: byte)

  /** Whether bit `mask` (a power of two) of `x` is set. */
  predicate HasBit(x: byte, mask: byte)
    requires mask == 0x20 || mask == 0x40 || mask == 0x80
  {
    (x / mask) % 2 == 1
  }

  /** `x | mask` for a one-bit mask. */
  function WithBit(x: byte, mask: byte): (r: byte)
    requires mask == 0x20 || mask == 0x40 || mask == 0x80
    ensures HasBit(r, mask)
  {
    if HasBit(x, mask) then x else x + mask
  }

  /** `x & ~mask` for a one-bit mask. */
  function WithoutBit(x: byte, mask: byte): (r: byte)
    requires mask == 0x20 || mask == 0x40 || mask == 0x80
    ensures !HasBit(r, mask)
  {
    if HasBit(x, mask) then x - mask else x
  }

  /**
   * `binary_to_bcd`: values below 10 are returned as they are, larger ones as
   * `(uint8_t)(bin / 10 << 4) | bin % 10` (the OR adds, the low nibble of
   * the shifted tens being zero).
   */
  function BinaryToBcd(bin: byte): byte
  {
    if bin >= 10 then ((bin / 10) * 16) % 0x100 + bin % 10 else bin
  }

  /** `bcd_to_binary`: tens nibble times ten plus the units nibble, in 8-bit arithmetic. */
  function BcdToBinary(bcd: byte): byte
  {
    (((bcd / 16) * 10) % 0x100 + bcd % 16) % 0x100
  }

  /** Below 10 BCD is the identity; below 100 each nibble is one decimal digit. */
  lemma BcdDigits(n: byte)
    requires n <= 99
    ensures n < 10 ==> BinaryToBcd(n) == n
    ensures BinaryToBcd(n) / 16 == n / 10 && BinaryToBcd(n) % 16 == n % 10
    ensures BinaryToBcd(n) / 16 <= 9 && BinaryToBcd(n) % 16 <= 9
  {
    var t, u := n / 10, n % 10;
    assert t <= 9 && u <= 9;
    if n >= 10 {
      assert t * 16 < 0x100;
      assert BinaryToBcd(n) == t * 16 + u;
    } else {
      assert t == 0 && BinaryToBcd(n) == t * 16 + u;
    }
    Nibbles(t, u);
  }

  lemma Nibbles(t: nat, u: nat)
    requires u < 16
    ensures (t * 16 + u) / 16 == t && (t * 16 + u) % 16 == u
  {
  }

  /** Decoding undoes encoding on 0..99. */
  lemma BcdRoundTrip(n: byte)
    requires n <= 99
    ensures BcdToBinary(BinaryToBcd(n)) == n
  {
    BcdDigits(n);
  }

  /** `BinaryToBcd` is one-to-one on 0..99, so distinct values give distinct register bytes. */
  lemma BcdInjective(m: byte, n: byte)
    requires m <= 99 && n <= 99 && m != n
    ensures BinaryToBcd(m) != BinaryToBcd(n)
  {
    BcdRoundTrip(m);
    BcdRoundTrip(n);
  }

  /** The seconds register: BCD seconds with bit 7, clock halt, forced to 0. */
  function SecondsByte(seconds: byte): (b: byte)
    ensures !HasBit(b, 0x80)
  {
    WithoutBit(BinaryToBcd(seconds), 0x80)
  }

  /**
   * The hours register: in 24-hour format bit 6 is cleared; otherwise bit 6
   * is set and bit 5 is set for PM, cleared for AM (and any other code).
   */
  function HoursByte(hours: byte, format: byte): (b: byte)
  {
    if format == TIME_FORMAT_24HRS then WithoutBit(BinaryToBcd(hours), 0x40)
    else if format == TIME_FORMAT_12HRS_PM then WithBit(WithBit(BinaryToBcd(hours), 0x40), 0x20)
    else WithoutBit(WithBit(BinaryToBcd(hours), 0x40), 0x20)
  }

  /** Setting or clearing bit 5 leaves bit 6 as it was. */
  lemma Bit6Kept(x: byte)
    ensures HasBit(WithBit(x, 0x20), 0x40) == HasBit(x, 0x40)
    ensures HasBit(WithoutBit(x, 0x20), 0x40) == HasBit(x, 0x40)
  {
  }

  /**
   * Whatever the hours value, bit 6 of the hours byte is set exactly in the
   * 12-hour formats, and there bit 5 is set exactly for PM.
   */
  lemma HoursByteBits(hours: byte, format: byte)
    ensures HasBit(HoursByte(hours, format), 0x40) <==> format != TIME_FORMAT_24HRS
    ensures format != TIME_FORMAT_24HRS ==> (HasBit(HoursByte(hours, format), 0x20) <==> format == TIME_FORMAT_12HRS_PM)
  {
    Bit6Kept(WithBit(BinaryToBcd(hours), 0x40));
  }

  /** The three register bytes `ds1307_set_current_time` writes, seconds first. */
  function EncodeTime(t: RtcTime): (regs: seq<byte>)
    ensures |regs| == 3
  {
    [SecondsByte(t.seconds), BinaryToBcd(t.minutes), HoursByte(t.hours, t.timeFormat)]
  }

  /**
   * `ds1307_get_current_time` on the seconds, minutes and hours bytes read:
   * clock halt masked off; bit 6 clear is 24-hour format, otherwise the
   * format is bit 5 and bits 5 and 6 are cleared before decoding.
   */
  function DecodeTime(sec: byte, min: byte, hour: byte): (t: RtcTime)
    ensures t.timeFormat == TIME_FORMAT_24HRS <==> !HasBit(hour, 0x40)
    ensures HasBit(hour, 0x40) ==> (t.timeFormat == TIME_FORMAT_12HRS_PM <==> HasBit(hour, 0x20))
  {
    var seconds := BcdToBinary(WithoutBit(sec, 0x80));
    var minutes := BcdToBinary(min);
    if !HasBit(hour, 0x40) then RtcTime(seconds, minutes, BcdToBinary(hour), TIME_FORMAT_24HRS)
    else RtcTime(seconds, minutes, BcdToBinary(WithoutBit(WithoutBit(hour, 0x20), 0x40)),
      if HasBit(hour, 0x20) then TIME_FORMAT_12HRS_PM else TIME_FORMAT_12HRS_AM)
  }

  /** A time the clock can hold: seconds and minutes 0..59, hours 0..23 or 1..12 by format. */
  predicate ValidTime(t: RtcTime)
  {
    t.seconds <= 59 && t.minutes <= 59 &&
    (if t.timeFormat == TIME_FORMAT_24HRS then t.hours <= 23
     else (t.timeFormat == TIME_FORMAT_12HRS_AM || t.timeFormat == TIME_FORMAT_12HRS_PM) && 1 <= t.hours <= 12)
  }

  /** The hours byte of a valid time keeps the BCD hours below bit 5 and the format in bits 5 and 6. */
  lemma HoursFields(hours: byte, format: byte)
    requires (format == TIME_FORMAT_24HRS && hours <= 23) ||
      ((format == TIME_FORMAT_12HRS_AM || format == TIME_FORMAT_12HRS_PM) && 1 <= hours <= 12)
    ensures HasBit(HoursByte(hours, format), 0x40) <==> format != TIME_FORMAT_24HRS
    ensures format != TIME_FORMAT_24HRS ==> (HasBit(HoursByte(hours, format), 0x20) <==> format == TIME_FORMAT_12HRS_PM)
    ensures format == TIME_FORMAT_24HRS ==> HoursByte(hours, format) == BinaryToBcd(hours)
    ensures format != TIME_FORMAT_24HRS ==> WithoutBit(WithoutBit(HoursByte(hours, format), 0x20), 0x40) == BinaryToBcd(hours)
  {
    BcdDigits(hours);
    assert BinaryToBcd(hours) < 0x40;
    if format != TIME_FORMAT_24HRS {
      assert BinaryToBcd(hours) < 0x20;
    }
  }

  /** Reading back the bytes written for a valid time gives the same time. */
  lemma TimeRoundTrip(t: RtcTime)
    requires ValidTime(t)
    ensures DecodeTime(EncodeTime(t)[0], EncodeTime(t)[1], EncodeTime(t)[2]) == t
  {
    BcdDigits(t.seconds);
    BcdRoundTrip(t.seconds);
    BcdRoundTrip(t.minutes);
    BcdRoundTrip(t.hours);
    HoursFields(t.hours, t.timeFormat);
    assert WithoutBit(SecondsByte(t.seconds), 0x80) == BinaryToBcd(t.seconds);
  }

  /** The four register bytes `ds1307_set_current_date` writes, day of the week first. */
  function EncodeDate(d: RtcDate): (regs: seq<byte>)
    ensures |regs| == 4
  {
    [BinaryToBcd(d.day), BinaryToBcd(d.date), BinaryToBcd(d.month), BinaryToBcd(d.year)]
  }

  function DecodeDate(day: byte, date: byte, month: byte, year: byte): RtcDate
  {
    RtcDate(BcdToBinary(day), BcdToBinary(date), BcdToBinary(month), BcdToBinary(year))
  }

  /** Every date field 0..99 reads back as written. */
  lemma DateRoundTrip(d: RtcDate)
    requires d.day <= 99 && d.date <= 99 && d.month <= 99 && d.year <= 99
    ensures DecodeDate(EncodeDate(d)[0], EncodeDate(d)[1], EncodeDate(d)[2], EncodeDate(d)[3]) == d
  {
    BcdRoundTrip(d.day);
    BcdRoundTrip(d.date);
    BcdRoundTrip(d.month);
    BcdRoundTrip(d.year);
  }

  /** `ds1307_init`'s result: bit 7 (clock halt) of the seconds byte read back. */
  function ClockHalt(sec: byte): (ch: byte)
    ensures ch == 0 || ch == 1
    ensures ch == 1 <==> HasBit(sec, 0x80)
  {
    (sec / 0x80) % 2
  }

  /** `ds1307_write`: one transfer of `[reg, val]` ending in STOP. */
  function WritePlan(addr: byte, reg: byte, val: byte): seq<Op>
  {
    [TxOp(addr, [reg, val], true)]
  }

  /** `ds1307_read`: `[reg]` with STOP, then one byte received from `rxAddr`. */
  function ReadPlan(addr: byte, rxAddr: byte, reg: byte): seq<Op>
  {
    [TxOp(addr, [reg], true), RxOp(rxAddr, 1)]
  }

  /** A register read consumes one reply byte, a register write none. */
  lemma PlanReplies(addr: byte, rxAddr: byte, reg: byte, val: byte)
    ensures Received(ReadPlan(addr, rxAddr, reg)) == 1
    ensures Received(WritePlan(addr, reg, val)) == 0
  {
    var p := ReadPlan(addr, rxAddr, reg);
    assert p[0].TxOp? && p[1..] == [RxOp(rxAddr, 1)] && p[1..][1..] == [];
    assert Received(p[1..]) == 1 + Received(p[1..][1..]);
    var w := WritePlan(addr, reg, val);
    assert w[1..] == [];
  }

  /** Time set: seconds, minutes, hours registers, in that order. */
  function SetTimePlan(addr: byte, t: RtcTime): seq<Op>
  {
    var regs := EncodeTime(t);
    WritePlan(addr, DS1307_ADDR_SEC, regs[0]) + WritePlan(addr, DS1307_ADDR_MIN, regs[1]) +
      WritePlan(addr, DS1307_ADDR_HOUR, regs[2])
  }

  function GetTimePlan(addr: byte, rxAddr: byte): seq<Op>
  {
    ReadPlan(addr, rxAddr, DS1307_ADDR_SEC) + ReadPlan(addr, rxAddr, DS1307_ADDR_MIN) +
      ReadPlan(addr, rxAddr, DS1307_ADDR_HOUR)
  }

  /** Date set: day, date, month, year registers, in that order. */
  function SetDatePlan(addr: byte, d: RtcDate): seq<Op>
  {
    var regs := EncodeDate(d);
    WritePlan(addr, DS1307_ADDR_DAY, regs[0]) + WritePlan(addr, DS1307_ADDR_DATE, regs[1]) +
      WritePlan(addr, DS1307_ADDR_MONTH, regs[2]) + WritePlan(addr, DS1307_ADDR_YEAR, regs[3])
  }

  function GetDatePlan(addr: byte, rxAddr: byte): seq<Op>
  {
    ReadPlan(addr, rxAddr, DS1307_ADDR_DAY) + ReadPlan(addr, rxAddr, DS1307_ADDR_DATE) +
      ReadPlan(addr, rxAddr, DS1307_ADDR_MONTH) + ReadPlan(addr, rxAddr, DS1307_ADDR_YEAR)
  }

  /** Init: clock halt cleared by writing 0 to the seconds register, then the seconds register read back. */
  function InitPlan(addr: byte, rxAddr: byte): seq<Op>
  {
    WritePlan(addr, DS1307_ADDR_SEC, 0) + ReadPlan(addr, rxAddr, DS1307_ADDR_SEC)
  }

  /** Every register write of a plan: the register address, then one value byte. */
  lemma SetTimeFraming(addr: byte, t: RtcTime)
    ensures |SetTimePlan(addr, t)| == 3
    ensures forall i :: 0 <= i < 3 ==> SetTimePlan(addr, t)[i].TxOp? && |SetTimePlan(addr, t)[i].data| == 2
    ensures SetTimePlan(addr, t)[0].data[0] == DS1307_ADDR_SEC && !HasBit(SetTimePlan(addr, t)[0].data[1], 0x80)
    ensures SetTimePlan(addr, t)[1].data[0] == DS1307_ADDR_MIN && SetTimePlan(addr, t)[2].data[0] == DS1307_ADDR_HOUR
  {
  }
}
