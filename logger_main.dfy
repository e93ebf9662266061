/**
 * The SD-card logger application (`Core/Src/main.c`): it formats the
 * clock's time and date into its static buffers and, on every sample, appends
 * one record to a per-day CSV file under `/LOGS/YYYY/MM`. A new month creates
 * the directories, and a new date starts a file with a header line. The
 * remembered month and date (`curr_month`, `curr_day`) start at 0.
 *
 * The FatFs glue (`sd_mount`, `sd_unmount`, `sd_create_directory`,
 * `sd_append_file`) is not part of this model: each call is logged as an
 * `SdOp` with the path (as a C string) and the data buffer it is given.
 * The clock readings and the text that `snprintf` formats from the BME280
 * measurement are parameters.
 */
module LoggerMain {
  import opened Bits
  import opened Text
  import opened Ds1307

  /** A call into the FatFs glue, with the path (and data) it was given. */
  datatype SdOp = Mount | Unmount | MkDir(path: seq<byte>) | Append(path: seq<byte>, data: seq<byte>)

  const CR: byte := 13
  const LF: byte := 10

  /** The CSV header line a new daily file starts with. */
  const HEADER: seq<byte> := Bytes("time;temperature;pressure;humidity\r\n")

  /** The logs root. */
  const LOGS: seq<byte> := Bytes("/LOGS")

  /** `"/LOGS/%04d"` of `year + 2000`. */
  function YearDir(year: byte): (y: seq<byte>)
    ensures |y| == 10
  {
    PadValue(year + 2000, 4);
    assert Pow10(4) == 10000 by { assert Pow10(2) == 100; }
    LOGS + ['/' as byte] + Pad(year + 2000, 4)
  }

  /** `"/LOGS/%04d/%02d"` of `year + 2000` and `month`. */
  function MonthDir(year: byte, month: byte): (m: seq<byte>)
    ensures |m| <= 14
  {
    PadValue(month, 2);
    DecimalLength(month, 3);
    assert Pow10(3) == 1000 by { assert Pow10(2) == 100; }
    YearDir(year) + ['/' as byte] + Pad(month, 2)
  }

  /**
   * The directory paths: "/LOGS" starts the year's path, which starts the
   * month's; the year is four digits that read back as 2000 + `year`, and a
   * month up to 99 is two digits that read back as itself, making the
   * month's path 13 characters. No path holds a NUL.
   */
  lemma DirPaths(year: byte, month: byte)
    ensures |YearDir(year)| == 10 && YearDir(year)[..5] == LOGS
    ensures MonthDir(year, month)[..10] == YearDir(year) && |MonthDir(year, month)| <= 14
    ensures Value(YearDir(year)[6..10]) == year + 2000
    ensures month <= 99 ==> |MonthDir(year, month)| == 13 && Value(MonthDir(year, month)[11..13]) == month
    ensures NUL !in MonthDir(year, month)
  {
    PadValue(year + 2000, 4);
    assert Pow10(4) == 10000 by { assert Pow10(2) == 100; }
    PadValue(month, 2);
    DecimalLength(month, 3);
    assert Pow10(3) == 1000 by { assert Pow10(2) == 100; }
    var y, m := YearDir(year), MonthDir(year, month);
    assert y[6..10] == Pad(year + 2000, 4);
    if month <= 99 {
      assert Pow10(2) == 100;
      assert m[11..13] == Pad(month, 2);
    }
    DigitsNotNul(Pad(year + 2000, 4));
    DigitsNotNul(Pad(month, 2));
  }

  /** The calls `sd_create_dir_logs` makes: the three directories, outermost first, between a mount and an unmount. */
  function DirOps(year: byte, month: byte): seq<SdOp>
  {
    [Mount, MkDir(LOGS), MkDir(YearDir(year)), MkDir(MonthDir(year, month)), Unmount]
  }

  /** `number_to_string`, `time_to_string` writes "HH:MM:SS;" into `buf[0..9)`, with no NUL. */
  method TimeToString(t: RtcTime, buf: array<byte>)
    requires buf.Length >= 9
    modifies buf
    ensures buf[..] == Clock(old(buf[..]), t.hours, t.minutes, t.seconds, ':' as byte, ';' as byte)
  {
    PutClock(buf, t.hours, t.minutes, t.seconds, ':' as byte, ';' as byte);
  }

  /** `date_to_string` writes "DD.MM.YY" and a NUL into `buf[0..9)`. */
  method DateToString(d: RtcDate, buf: array<byte>)
    requires buf.Length >= 9
    modifies buf
    ensures buf[..] == Clock(old(buf[..]), d.date, d.month, d.year, '.' as byte, NUL)
  {
    PutClock(buf, d.date, d.month, d.year, '.' as byte, NUL);
  }

  /** The time field of a record reads back as the time's hours, minutes and seconds, when each is at most 99. */
  lemma TimeFieldParses(buf: seq<byte>, t: RtcTime)
    requires |buf| >= 9 && t.hours <= 99 && t.minutes <= 99 && t.seconds <= 99
    ensures var r := Clock(buf, t.hours, t.minutes, t.seconds, ':' as byte, ';' as byte);
      r[..9] == ClockText(t.hours, t.minutes, t.seconds, ':' as byte) + [';' as byte] &&
      NumberAt(r, 0) == t.hours && NumberAt(r, 3) == t.minutes && NumberAt(r, 6) == t.seconds
  {
    ClockLayout(buf, t.hours, t.minutes, t.seconds, ':' as byte, ';' as byte);
    ClockParsesBack(buf, t.hours, t.minutes, t.seconds, ':' as byte, ';' as byte);
  }

  /**
   * The 16 bytes `update_data` leaves at `buf[9..25)`: filled with 'A', then
   * `snprintf(&buf[9], 16, ...)` of `text`, which keeps at most 15
   * characters and a NUL.
   */
  function Measurement(text: seq<byte>): (m: seq<byte>)
    requires NUL !in text
    ensures |m| == 16 && NUL in m
  {
    var k := if |text| < 15 then |text| else 15;
    text[..k] + [NUL] + seq(15 - k, _ => 'A' as byte)
  }

  /** `date_csv`: 'D', the eight characters of the date, then ".csv", with no NUL. */
  function DayFile(date: seq<byte>): (f: seq<byte>)
    requires |date| >= 8
    ensures |f| == 13
  {
    ['D' as byte] + date[..8] + Bytes(".csv")
  }

  /** `file_path` after the month step: the first 14 bytes of `path` copied in, then '/' at 13. */
  function WithDir(filePath: seq<byte>, path: seq<byte>): (f: seq<byte>)
    requires |filePath| == 128 && |path| == 64
    ensures |f| == 128
  {
    Written(filePath, 0, path[..14])[13 := '/' as byte]
  }

  /** `file_path` after the day step: `date_csv` copied in at 14, then '/' at 13. */
  function WithDayFile(filePath: seq<byte>, dateCsv: seq<byte>): (f: seq<byte>)
    requires |filePath| == 128 && |dateCsv| == 13
    ensures |f| == 128
  {
    Written(filePath, 14, dateCsv)[13 := '/' as byte]
  }

  /** The record `sd_logs` appends: the time field and the measurement, with CR LF at 24 and 25. */
  function Record(rx: seq<byte>, t: RtcTime, text: seq<byte>): (r: seq<byte>)
    requires |rx| == 26 && NUL !in text
    ensures |r| == 26 && r[24] == CR && r[25] == LF
  {
    Clock(Written(rx, 9, Measurement(text)), t.hours, t.minutes, t.seconds, ':' as byte, ';' as byte)[24 := CR][25 := LF]
  }

  /**
   * What `sd_logs` hands the FatFs glue: the directories when the month
   * changed; then, mounted, the header when the date changed, and the
   * record in every case, both to the daily file.
   */
  function LogOps(dirStep: bool, year: byte, month: byte, dayStep: bool, file: seq<byte>, record: seq<byte>): seq<SdOp>
  {
    (if dirStep then DirOps(year, month) else []) + [Mount]
    + (if dayStep then [Append(file, HEADER)] else []) + [Append(file, record), Unmount]
  }

  /** The logger's statics (`curr_day`, `curr_month` and the buffers) and the calls made to the card. */
  class Logger {
    var currDay: uint32
    var currMonth: uint32
    /** `path[64]`, `file_path[128]`, `rx_buf[26]`, `date[9]`, `date_csv[13]`. */
    const path: array<byte>
    const filePath: array<byte>
    const rxBuf: array<byte>
    const date: array<byte>
    const dateCsv: array<byte>
    var sd: seq<SdOp>

    /**
     * The buffers are distinct and of their declared sizes, and `file_path`
     * keeps the NUL it started with at 27, just past the longest path the
     * logger builds.
     */
    ghost predicate Valid()
      reads this, filePath
    {
      path.Length == 64 && filePath.Length == 128 && rxBuf.Length == 26 && date.Length == 9 && dateCsv.Length == 13
      && path != filePath && path != rxBuf && path != date && path != dateCsv
      && filePath != rxBuf && filePath != date && filePath != dateCsv
      && rxBuf != date && rxBuf != dateCsv && date != dateCsv
      && filePath[27] == NUL
    }

    /** The program's start: statics zero-initialised, nothing sent to the card. */
    constructor ()
      ensures Valid() && currDay == 0 && currMonth == 0 && sd == []
      ensures path[..] == seq(64, _ => NUL) && filePath[..] == seq(128, _ => NUL)
      ensures rxBuf[..] == seq(26, _ => NUL) && date[..] == seq(9, _ => NUL) && dateCsv[..] == seq(13, _ => NUL)
    {
      currDay := 0;
      currMonth := 0;
      path := new byte[64](_ => NUL);
      filePath := new byte[128](_ => NUL);
      rxBuf := new byte[26](_ => NUL);
      date := new byte[9](_ => NUL);
      dateCsv := new byte[13](_ => NUL);
      sd := [];
    }

    /**
     * `sd_create_dir_logs(path, year, month)`: "/LOGS", then the year's and
     * the month's directory, each path `sprintf`-ed into `path` before it is
     * created, all between a mount and an unmount.
     */
    method CreateDirLogs(year: byte, month: byte)
      requires Valid()
      modifies path, this`sd
      ensures path[..] == Written(old(path[..]), 0, MonthDir(year, month) + [NUL])
      ensures sd == old(sd) + DirOps(year, month)
    {
      DirPaths(year, month);
      sd := sd + [Mount];
      sd := sd + [MkDir(LOGS)];
      Copy(path, 0, YearDir(year) + [NUL]);
      CStringOf(path[..], YearDir(year));
      sd := sd + [MkDir(CString(path[..]))];
      Copy(path, 0, MonthDir(year, month) + [NUL]);
      CStringOf(path[..], MonthDir(year, month));
      sd := sd + [MkDir(CString(path[..]))];
      sd := sd + [Unmount];
      WrittenOver(old(path[..]), 0, YearDir(year) + [NUL], MonthDir(year, month) + [NUL]);
    }

    /** `update_data(rx_buf)`: 'A' over `rx_buf[9..25)`, then the measurement text `snprintf`-ed there. */
    method UpdateData(text: seq<byte>)
      requires Valid() && NUL !in text
      modifies rxBuf
      ensures rxBuf[..] == Written(old(rxBuf[..]), 9, Measurement(text))
    {
      var fill := seq(16, _ => 'A' as byte);
      Copy(rxBuf, 9, fill);
      var k := if |text| < 15 then |text| else 15;
      Copy(rxBuf, 9, text[..k] + [NUL]);
      WrittenUnder(old(rxBuf[..]), 9, fill, text[..k] + [NUL]);
      assert fill[k + 1..] == seq(15 - k, _ => 'A' as byte);
    }

    /** `get_data(rx_buf)` on the clock's readings: the time into `rx_buf`, the date into `date`. */
    method GetData(t: RtcTime, d: RtcDate)
      requires Valid()
      modifies rxBuf, date
      ensures rxBuf[..] == Clock(old(rxBuf[..]), t.hours, t.minutes, t.seconds, ':' as byte, ';' as byte)
      ensures date[..] == Clock(old(date[..]), d.date, d.month, d.year, '.' as byte, NUL)
    {
      TimeToString(t, rxBuf);
      DateToString(d, date);
    }

    /** The month step: the directories created, then the month's path copied into `file_path` with '/' at 13. */
    method NewMonth(d: RtcDate)
      requires Valid()
      modifies path, filePath, this`sd, this`currMonth
      ensures Valid()
      ensures currMonth == d.month
      ensures path[..] == Written(old(path[..]), 0, MonthDir(d.year, d.month) + [NUL])
      ensures filePath[..] == WithDir(old(filePath[..]), path[..])
      ensures sd == old(sd) + DirOps(d.year, d.month)
    {
      currMonth := d.month;
      CreateDirLogs(d.year, d.month);
      Copy(filePath, 0, path[..14]);
      filePath[13] := '/' as byte;
    }

    /** The day step: `date_csv` built from the date text and copied into `file_path` at 14, '/' at 13, then the header appended. */
    method NewDay(d: RtcDate)
      requires Valid()
      modifies filePath, dateCsv, this`sd, this`currDay
      ensures Valid()
      ensures currDay == d.date
      ensures dateCsv[..] == DayFile(date[..])
      ensures filePath[..] == WithDayFile(old(filePath[..]), dateCsv[..])
      ensures sd == old(sd) + [Append(CString(filePath[..]), HEADER)]
    {
      currDay := d.date;
      dateCsv[0] := 'D' as byte;
      Copy(dateCsv, 1, date[..8]);
      dateCsv[9] := '.' as byte;
      dateCsv[10] := 'c' as byte;
      dateCsv[11] := 's' as byte;
      dateCsv[12] := 'v' as byte;
      assert dateCsv[..] == DayFile(date[..]);
      Copy(filePath, 14, dateCsv[..]);
      filePath[13] := '/' as byte;
      sd := sd + [Append(CString(filePath[..]), HEADER)];
    }

    /**
     * `sd_logs`: the measurement and the clock formatted; the directories
     * when the month differs from the remembered one; the header when the
     * date does; then the record, with CR LF at 24 and 25, appended to the
     * daily file. Both remembered values end up as the clock's.
     */
    method SdLogs(t: RtcTime, d: RtcDate, text: seq<byte>)
      requires Valid() && NUL !in text
      modifies path, filePath, rxBuf, date, dateCsv, this`sd, this`currDay, this`currMonth
      ensures Valid()
      ensures currMonth == d.month && currDay == d.date
      ensures rxBuf[..] == Record(old(rxBuf[..]), t, text)
      ensures date[..] == Clock(old(date[..]), d.date, d.month, d.year, '.' as byte, NUL)
      ensures path[..] == if old(currMonth) != d.month then Written(old(path[..]), 0, MonthDir(d.year, d.month) + [NUL]) else old(path[..])
      ensures dateCsv[..] == if old(currDay) != d.date then DayFile(date[..]) else old(dateCsv[..])
      ensures var f := if old(currMonth) != d.month then WithDir(old(filePath[..]), path[..]) else old(filePath[..]);
        filePath[..] == if old(currDay) != d.date then WithDayFile(f, dateCsv[..]) else f
      ensures sd == old(sd) + LogOps(old(currMonth) != d.month, d.year, d.month, old(currDay) != d.date, CString(filePath[..]), rxBuf[..])
    {
      UpdateData(text);
      GetData(t, d);
      ghost var dirStep, dayStep := currMonth != d.month, currDay != d.date;
      ghost var dirOps := if dirStep then DirOps(d.year, d.month) else [];
      if currMonth != d.month {
        NewMonth(d);
      }
      assert sd == old(sd) + dirOps;
      sd := sd + [Mount];
      if currDay != d.date {
        NewDay(d);
      }
      ghost var file := CString(filePath[..]);
      ghost var header := if dayStep then [Append(file, HEADER)] else [];
      assert sd == old(sd) + dirOps + [Mount] + header;
      rxBuf[24] := CR;
      rxBuf[25] := LF;
      sd := sd + [Append(CString(filePath[..]), rxBuf[..]), Unmount];
      LogOpsParts(old(sd), dirStep, d.year, d.month, dayStep, file, rxBuf[..]);
    }
  }

  /** `LogOps` is its pieces appended one after the other. */
  lemma LogOpsParts(s0: seq<SdOp>, dirStep: bool, year: byte, month: byte, dayStep: bool, file: seq<byte>, record: seq<byte>)
    ensures s0 + (if dirStep then DirOps(year, month) else []) + [Mount] + (if dayStep then [Append(file, HEADER)] else [])
      + [Append(file, record), Unmount] == s0 + LogOps(dirStep, year, month, dayStep, file, record)
  {
  }

  /**
   * The daily file's path: with the month's path 13 characters long (a month
   * up to 99) and the NUL at 27 still in place, `file_path` names the file
   * "/LOGS/YYYY/MM/Ddd.mm.yy.csv".
   */
  lemma DailyPath(filePath: seq<byte>, path: seq<byte>, year: byte, month: byte, date: seq<byte>)
    requires |filePath| == 128 && |path| == 64 && |date| >= 8 && filePath[27] == NUL
    requires month <= 99 && path[..14] == MonthDir(year, month) + [NUL] && NUL !in date[..8]
    ensures CString(WithDayFile(WithDir(filePath, path), DayFile(date)))
      == MonthDir(year, month) + ['/' as byte, 'D' as byte] + date[..8] + Bytes(".csv")
  {
    DirPaths(year, month);
    var f := WithDayFile(WithDir(filePath, path), DayFile(date));
    var s := MonthDir(year, month) + ['/' as byte, 'D' as byte] + date[..8] + Bytes(".csv");
    assert |s| == 27;
    assert forall i :: 0 <= i < 13 ==> f[i] == s[i];
    assert forall i :: 13 <= i < 27 ==> f[i] == s[i];
    assert f[..27] == s;
    assert NUL !in s;
    CStringOf(f, s);
  }

  /**
   * The first sample after start-up, with a valid month and date and a clock
   * whose fields are at most 99: both steps run, so the directories are
   * created and the header and the record go to
   * "/LOGS/YYYY/MM/Ddd.mm.yy.csv", in that order.
   */
  lemma FirstSample(t: RtcTime, d: RtcDate, text: seq<byte>)
    requires 1 <= d.month <= 12 && 1 <= d.date <= 31 && d.year <= 99
    ensures var date := Clock(seq(9, _ => NUL), d.date, d.month, d.year, '.' as byte, NUL);
      var path := Written(seq(64, _ => NUL), 0, MonthDir(d.year, d.month) + [NUL]);
      var file := WithDayFile(WithDir(seq(128, _ => NUL), path), DayFile(date));
      CString(file) == MonthDir(d.year, d.month) + ['/' as byte, 'D' as byte] + ClockText(d.date, d.month, d.year, '.' as byte) + Bytes(".csv")
  {
    var date := Clock(seq(9, _ => NUL), d.date, d.month, d.year, '.' as byte, NUL);
    var path := Written(seq(64, _ => NUL), 0, MonthDir(d.year, d.month) + [NUL]);
    DirPaths(d.year, d.month);
    ClockLayout(seq(9, _ => NUL), d.date, d.month, d.year, '.' as byte, NUL);
    assert date[..8] == ClockText(d.date, d.month, d.year, '.' as byte) by {
      assert date[..8] == date[..9][..8];
    }
    ClockTextNoNul(d.date, d.month, d.year, '.' as byte);
    assert path[..14] == MonthDir(d.year, d.month) + [NUL];
    DailyPath(seq(128, _ => NUL), path, d.year, d.month, date);
  }
}
