/**
 * The RTC + LCD + EEPROM test application (`Src/016rtc_lcd.c`) over the
 * register-level drivers: the SysTick set-up, the day-name table, its own
 * `time_to_string` / `date_to_string` into static buffers, and the SysTick
 * handler's EEPROM traffic, which stores the time and the date through the
 * EEPROM adapter's write cursor and reads eight bytes at a time back through
 * a cursor of its own (`cuur_data`).
 */
module RtcLcdApp {
  import opened Bits
  import opened I2cBus
  import opened Ds1307
  import Ds1307Driver
  import opened At24c32
  import opened Text
  import Seqs

  /** `SYSTICK_TIM_CLK`: the processor clock feeding SysTick, in Hz. */
  const SYSTICK_TIM_CLK: nat := 16000000

  /** SCSR bits: `TICKINT` (1), `CLKSOURCE` (2), `ENABLE` (0). */
  const SCSR_TICKINT: bv32 := 0x2
  const SCSR_CLKSOURCE: bv32 := 0x4
  const SCSR_ENABLE: bv32 := 0x1

  /**
   * `(SYSTICK_TIM_CLK / tick_hz) - 1` in `uint32_t`: the quotient is 0 for
   * a tick rate above the clock, and the subtraction then wraps to 0xFFFFFFFF.
   */
  function ReloadValue(tickHz: uint32): (r: uint32)
    requires tickHz > 0
  {
    if tickHz <= SYSTICK_TIM_CLK then SYSTICK_TIM_CLK / tickHz - 1 else 0xFFFF_FFFF
  }

  /**
   * The reload value gives a period of `reload + 1` clock cycles: the
   * largest whole number of cycles that fit in one tick at `tickHz`; above
   * the clock rate the subtraction wraps.
   */
  lemma ReloadPeriod(tickHz: uint32)
    requires tickHz > 0
    ensures tickHz <= SYSTICK_TIM_CLK ==>
      (ReloadValue(tickHz) + 1) * tickHz <= SYSTICK_TIM_CLK < (ReloadValue(tickHz) + 2) * tickHz
    ensures tickHz > SYSTICK_TIM_CLK ==> ReloadValue(tickHz) == 0xFFFF_FFFF
  {
    if tickHz <= SYSTICK_TIM_CLK {
      var q := SYSTICK_TIM_CLK / tickHz;
      QuotientBounds(SYSTICK_TIM_CLK, tickHz);
      var r := ReloadValue(tickHz);
      assert r + 1 == q;
      assert (r + 2) * tickHz == q * tickHz + tickHz;
    }
  }

  /** `b * (a / b)` is at most `a` and `b` more exceeds it; for `b <= a` the quotient is at least 1. */
  lemma QuotientBounds(a: nat, b: nat)
    requires 0 < b
    ensures (a / b) * b <= a < (a / b) * b + b
    ensures b <= a ==> a / b >= 1
  {
    var q, m := a / b, a % b;
    assert q * b + m == a;
  }

  /** At 1 Hz the counter reloads with 15,999,999: one interrupt per second. */
  lemma ReloadOneHertz()
    ensures ReloadValue(1) == 15999999
  {
  }

  /** SCSR after `init_systick_timer`'s three read-modify-writes. */
  function ScsrEnabled(scsr: bv32): bv32
  {
    SetBits(SetBits(SetBits(scsr, SCSR_TICKINT), SCSR_CLKSOURCE), SCSR_ENABLE)
  }

  /** The three writes set bits 0..2 of SCSR and no other bit. */
  lemma ScsrEnabledBits(scsr: bv32)
    ensures ScsrEnabled(scsr) == scsr | 0x7
  {
  }

  /** The SysTick reload (SRVR) and control/status (SCSR) registers. */
  class SysTick {
    /** SRVR is only loaded, so it is held as a number. */
    var srvr: uint32
    var scsr: bv32
    /** The values written to SCSR, in order. */
    ghost var scsrWrites: seq<bv32>

    constructor ()
      ensures srvr == 0 && scsr == 0 && scsrWrites == []
    {
      srvr := 0;
      scsr := 0;
      scsrWrites := [];
    }

    /**
     * `init_systick_timer(tick_hz)`: SRVR cleared, then loaded with the
     * reload value; then SCSR gets TICKINT, CLKSOURCE and ENABLE, one write
     * each and in that order, so the counter starts last.
     */
    method InitSystickTimer(tickHz: uint32)
      requires tickHz > 0
      modifies this
      ensures srvr == ReloadValue(tickHz)
      ensures scsr == ScsrEnabled(old(scsr))
      ensures scsrWrites == old(scsrWrites) + [SetBits(old(scsr), SCSR_TICKINT),
        SetBits(SetBits(old(scsr), SCSR_TICKINT), SCSR_CLKSOURCE), ScsrEnabled(old(scsr))]
    {
      var countValue: uint32 := ReloadValue(tickHz);
      srvr := 0;  // `&= ~(0x00FFFFFFFF)` clears all 32 bits
      srvr := srvr + countValue;  // `|=` into the cleared register
      var s1 := SetBits(scsr, SCSR_TICKINT);
      var s2 := SetBits(s1, SCSR_CLKSOURCE);
      var s3 := SetBits(s2, SCSR_ENABLE);
      scsr := s3;
      scsrWrites := scsrWrites + [s1, s2, s3];
    }
  }

  /** The day names, Sunday first. */
  const DAYS: seq<string> := ["Sun", "Mon", "Tue", "Wed", "Thu", "Fri", "Sat"]

  /** `get_day_of_weak(dayCode)`: codes 1..7 name Sunday..Saturday; any other code indexes outside the table. */
  function DayOfWeek(dayCode: byte): (name: string)
    requires 1 <= dayCode <= 7
    ensures |name| == 3
  {
    DAYS[dayCode - 1]
  }

  /** Every code has its own name, and the week starts on Sunday. */
  lemma DayNamesDistinct(a: byte, b: byte)
    requires 1 <= a <= 7 && 1 <= b <= 7
    ensures DayOfWeek(a) == DayOfWeek(b) <==> a == b
    ensures DayOfWeek(1) == "Sun" && DayOfWeek(7) == "Sat"
  {
    if a != b {
      var x, y := DayOfWeek(a), DayOfWeek(b);
      assert x[0] != y[0] || x[1] != y[1] || x[2] != y[2];
    }
  }

  /** The text a static `time_to_string` / `date_to_string` buffer holds for `strlen`. */
  function StoredText(buf: seq<byte>): seq<byte>
  {
    CString(buf)
  }

  /** The application's statics, the clock and EEPROM adapters, and the bus they share. */
  class App {
    /** `time_to_string`'s and `date_to_string`'s `static char buf[9]`. */
    const timeBuf: array<byte>
    const dateBuf: array<byte>
    /** `rx_buf[9]`. */
    const rxBuf: array<byte>
    /** `cuur_data`: the read cursor, a `uint16_t`. */
    var cuurData: uint16
    const bus: Bus
    const eeprom: Eeprom

    ghost predicate Valid()
      reads this
    {
      timeBuf.Length == 9 && dateBuf.Length == 9 && rxBuf.Length == 9
      && timeBuf != dateBuf && timeBuf != rxBuf && dateBuf != rxBuf
      && eeprom.bus == bus
    }

    /** The program's start: zero-initialised statics, the EEPROM cursor at its start. */
    constructor (bus: Bus)
      ensures Valid() && fresh(timeBuf) && fresh(dateBuf) && fresh(rxBuf) && fresh(eeprom)
      ensures this.bus == bus && cuurData == 0 && eeprom.currAddr == AT24C32_START_ADDR
      ensures timeBuf[..] == seq(9, _ => NUL) && dateBuf[..] == seq(9, _ => NUL) && rxBuf[..] == seq(9, _ => NUL)
    {
      timeBuf := new byte[9](_ => NUL);
      dateBuf := new byte[9](_ => NUL);
      rxBuf := new byte[9](_ => NUL);
      cuurData := 0;
      this.bus := bus;
      eeprom := new Eeprom(bus);
    }

    /** `time_to_string`: "HH:MM:SS" with a NUL at 8, in the static buffer. */
    method TimeToString(t: RtcTime)
      requires Valid()
      modifies timeBuf
      ensures timeBuf[..] == Clock(old(timeBuf[..]), t.hours, t.minutes, t.seconds, ':' as byte, NUL)
    {
      PutClock(timeBuf, t.hours, t.minutes, t.seconds, ':' as byte, NUL);
    }

    /** `date_to_string`: "DD.MM.YY" with a NUL at 8, in the static buffer. */
    method DateToString(d: RtcDate)
      requires Valid()
      modifies dateBuf
      ensures dateBuf[..] == Clock(old(dateBuf[..]), d.date, d.month, d.year, '.' as byte, NUL)
    {
      PutClock(dateBuf, d.date, d.month, d.year, '.' as byte, NUL);
    }

    /**
     * `saveDataIntoEEPROM`: the time and the date read from the clock, then
     * each formatted and written from the EEPROM cursor, `strlen` bytes of
     * it. `time_to_string` runs twice per write (for the pointer and for
     * `strlen`); the second run leaves what the first did.
     */
    method SaveDataIntoEeprom()
      requires Valid()
      modifies timeBuf, dateBuf, bus`log, bus`replies, eeprom`currAddr
      ensures var r := old(bus.replies);
        var t := DecodeTime(Reply(r, 0), Reply(r, 1), Reply(r, 2));
        var d := DecodeDate(Reply(r, 3), Reply(r, 4), Reply(r, 5), Reply(r, 6));
        timeBuf[..] == Clock(old(timeBuf[..]), t.hours, t.minutes, t.seconds, ':' as byte, NUL) &&
        dateBuf[..] == Clock(old(dateBuf[..]), d.date, d.month, d.year, '.' as byte, NUL) &&
        bus.replies == Drop(r, 7) &&
        bus.log == old(bus.log) + StoreLog(r, old(eeprom.currAddr), StoredText(timeBuf[..]), StoredText(dateBuf[..])) &&
        eeprom.currAddr == NextCursor(NextCursor(old(eeprom.currAddr), |StoredText(timeBuf[..])|), |StoredText(dateBuf[..])|)
    {
      ghost var r := bus.replies;
      ghost var log0 := bus.log;
      ghost var c0 := eeprom.currAddr;
      var t := Ds1307Driver.GetCurrentTime(bus);
      ghost var log1 := bus.log;
      var d := Ds1307Driver.GetCurrentDate(bus);
      DropDrop(r, 3, 4);
      DropReply(r, 3, 0);
      DropReply(r, 3, 1);
      DropReply(r, 3, 2);
      DropReply(r, 3, 3);
      ghost var log2 := bus.log;
      TimeToString(t);
      ghost var once := timeBuf[..];
      TimeToString(t);
      ClockTwice(old(timeBuf[..]), t.hours, t.minutes, t.seconds, ':' as byte, NUL);
      assert timeBuf[..] == once;
      eeprom.SetData(StoredText(timeBuf[..]));
      ghost var log3 := bus.log;
      ghost var c1 := eeprom.currAddr;
      DateToString(d);
      once := dateBuf[..];
      DateToString(d);
      ClockTwice(old(dateBuf[..]), d.date, d.month, d.year, '.' as byte, NUL);
      assert dateBuf[..] == once;
      eeprom.SetData(StoredText(dateBuf[..]));
      StoreLogParts(log0, log1, log2, log3, bus.log, r, c0, c1, StoredText(timeBuf[..]), StoredText(dateBuf[..]));
    }

    /**
     * `get_data`: eight bytes read from the read cursor into `rx_buf`, the
     * cursor moved on by 8 (wrapping only as a `uint16_t`), and a NUL at 8.
     * The EEPROM adapter's write cursor is not involved.
     */
    method GetData()
      requires Valid()
      modifies rxBuf, this`cuurData, bus`log, bus`replies
      ensures rxBuf[..] == Take(old(bus.replies), 8) + [NUL]
      ensures cuurData == Advance(old(cuurData), 8)
      ensures bus.replies == Drop(old(bus.replies), 8)
      ensures bus.log == old(bus.log) + DriverRun(GetDataPlan(old(cuurData), 8), old(bus.replies))
    {
      var rx := eeprom.GetData(cuurData, 8);
      Copy(rxBuf, 0, rx);
      cuurData := (cuurData + 8) % 0x1_0000;
      rxBuf[8] := NUL;
      assert rxBuf[..] == rx + [NUL];
    }

    /**
     * The EEPROM traffic of `SysTick_Handler`: the time and the date stored,
     * then two eight-byte reads from the read cursor. The LCD output between
     * them is not part of this model.
     */
    method SysTickHandler()
      requires Valid()
      modifies timeBuf, dateBuf, rxBuf, this`cuurData, bus`log, bus`replies, eeprom`currAddr
      ensures var r := old(bus.replies);
        bus.log == old(bus.log) + StoreLog(r, old(eeprom.currAddr), StoredText(timeBuf[..]), StoredText(dateBuf[..]))
          + DriverRun(GetDataPlan(old(cuurData), 8), Drop(r, 7))
          + DriverRun(GetDataPlan(Advance(old(cuurData), 8), 8), Drop(r, 15))
      ensures eeprom.currAddr == NextCursor(NextCursor(old(eeprom.currAddr), |StoredText(timeBuf[..])|), |StoredText(dateBuf[..])|)
      ensures cuurData == Advance(old(cuurData), 16)
      ensures rxBuf[..] == Take(Drop(old(bus.replies), 15), 8) + [NUL]
    {
      ghost var r := bus.replies;
      SaveDataIntoEeprom();
      GetData();
      DropDrop(r, 7, 8);
      GetData();
      DropDrop(r, 15, 8);
      AdvanceTwice(old(cuurData), 8, 8);
    }
  }

  /**
   * The bus log of `saveDataIntoEEPROM`: three register reads for the time,
   * four for the date, then the frames of the time text from cursor `c0`
   * and of the date text from where the first write left the cursor.
   */
  function StoreLog(r: seq<byte>, c0: uint16, time: seq<byte>, date: seq<byte>): seq<Transfer>
  {
    DriverRun(GetTimePlan(Ds1307Driver.DS1307_I2C_ADDR, Ds1307Driver.DS1307_I2C_ADDR), r)
    + DriverRun(GetDatePlan(Ds1307Driver.DS1307_I2C_ADDR, Ds1307Driver.DS1307_I2C_ADDR), Drop(r, 3))
    + DriverRun(SetDataPlan(c0, time), Drop(r, 7))
    + DriverRun(SetDataPlan(NextCursor(c0, |time|), date), Drop(r, 7))
  }

  lemma StoreLogParts(log0: seq<Transfer>, log1: seq<Transfer>, log2: seq<Transfer>, log3: seq<Transfer>, log4: seq<Transfer>,
                      r: seq<byte>, c0: uint16, c1: uint16, time: seq<byte>, date: seq<byte>)
    requires log1 == log0 + DriverRun(GetTimePlan(Ds1307Driver.DS1307_I2C_ADDR, Ds1307Driver.DS1307_I2C_ADDR), r)
    requires log2 == log1 + DriverRun(GetDatePlan(Ds1307Driver.DS1307_I2C_ADDR, Ds1307Driver.DS1307_I2C_ADDR), Drop(r, 3))
    requires log3 == log2 + DriverRun(SetDataPlan(c0, time), Drop(r, 7))
    requires c1 == NextCursor(c0, |time|)
    requires log4 == log3 + DriverRun(SetDataPlan(c1, date), Drop(r, 7))
    ensures log4 == log0 + StoreLog(r, c0, time, date)
  {
    var a := DriverRun(GetTimePlan(Ds1307Driver.DS1307_I2C_ADDR, Ds1307Driver.DS1307_I2C_ADDR), r);
    var b := DriverRun(GetDatePlan(Ds1307Driver.DS1307_I2C_ADDR, Ds1307Driver.DS1307_I2C_ADDR), Drop(r, 3));
    var c := DriverRun(SetDataPlan(c0, time), Drop(r, 7));
    var d := DriverRun(SetDataPlan(c1, date), Drop(r, 7));
    assert StoreLog(r, c0, time, date) == a + b + c + d;
    assert log4 == log0 + a + b + c + d;
    Seqs.Regroup4(log0, a, b, c, d);
  }

  /**
   * When the clock's fields are at most 99, each store writes eight bytes,
   * "HH:MM:SS" and then "DD.MM.YY", so a SysTick writes sixteen bytes
   * and reads sixteen back.
   */
  lemma StoresSixteenBytes(tb: seq<byte>, db: seq<byte>, t: RtcTime, d: RtcDate)
    requires |tb| >= 9 && |db| >= 9
    requires t.hours <= 99 && t.minutes <= 99 && t.seconds <= 99 && d.date <= 99 && d.month <= 99 && d.year <= 99
    ensures StoredText(Clock(tb, t.hours, t.minutes, t.seconds, ':' as byte, NUL)) == ClockText(t.hours, t.minutes, t.seconds, ':' as byte)
    ensures StoredText(Clock(db, d.date, d.month, d.year, '.' as byte, NUL)) == ClockText(d.date, d.month, d.year, '.' as byte)
    ensures |StoredText(Clock(tb, t.hours, t.minutes, t.seconds, ':' as byte, NUL))| + |StoredText(Clock(db, d.date, d.month, d.year, '.' as byte, NUL))| == 16
  {
    ClockCString(tb, t.hours, t.minutes, t.seconds, ':' as byte);
    ClockCString(db, d.date, d.month, d.year, '.' as byte);
  }
}
