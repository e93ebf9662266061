/**
 * The character LCD driver (`bsp/lcd.c`): an HD44780-type controller driven
 * in 4-bit mode through seven GPIO lines (RS, RW, EN, D4..D7).
 *
 * The model keeps the level of each line and the nibbles the controller
 * has taken in. The controller latches RS, RW and D7..D4 on every falling
 * edge of EN (the "Bus Timing Characteristics" of the Hitachi HD44780U
 * datasheet); in 4-bit mode two such nibbles, high one first, make up one
 * command or data byte (`Assemble`). The busy-wait delays are no-ops here.
 *
 * Bytes are integers: the driver's `(num >> k) & 0x1` is `(num / 2^k) % 2`
 * and its `cmd >> 4` and `cmd & 0x0F` are `cmd / 16` and `cmd % 16`, which
 * agree for every `uint8_t`.
 */
module Lcd {
  import opened Bits
  import Seqs

  /** The values `GPIO_WriteToOutputPin` takes (`GPIO_PIN_SET` as a byte). */
  const GPIO_PIN_RESET: byte := 0
  const GPIO_PIN_SET: byte := 1

  /**
   * The commands the driver sends. `lcd.h` is not part of this model; these
   * are the HD44780 encodings of the instructions the names describe.
   */
  const LCD_CMD_4DL_2N_5X8F: byte := 0x28
  const LCD_CMD_DON_CURON: byte := 0x0E
  const LCD_CMD_INCADD: byte := 0x06
  const LCD_CMD_DIS_CLEAR: byte := 0x01
  const LCD_CMD_DIS_RETURN_HOME: byte := 0x02

  datatype Option<T> = None | Some(value: T)

  /** The LCD's lines; their port and pin numbers live in `lcd.h`. */
  datatype Pin = RS | RW | EN | D4 | D5 | D6 | D7

  /** The level of every line, `true` for high. */
  datatype Lines = Lines(rs: bool, rw: bool, en: bool, d4: bool, d5: bool, d6: bool, d7: bool)

  /** One nibble taken in by the controller, with the RS and RW levels at that moment. */
  datatype Latch = Latch(rs: bool, rw: bool, nibble: nat)

  /** One byte as a 4-bit-mode controller assembles it: a command (`rs` low) or a character (`rs` high). */
  datatype Transfer = Transfer(rs: bool, value: nat)

  /** The nibble on D7..D4. */
  function NibbleOf(l: Lines): (n: nat)
    ensures n < 16
  {
    (if l.d7 then 8 else 0) + (if l.d6 then 4 else 0) + (if l.d5 then 2 else 0) + (if l.d4 then 1 else 0)
  }

  /** One line driven high or low. */
  function Drive(l: Lines, pin: Pin, high: bool): Lines
  {
    match pin
    case RS => l.(rs := high)
    case RW => l.(rw := high)
    case EN => l.(en := high)
    case D4 => l.(d4 := high)
    case D5 => l.(d5 := high)
    case D6 => l.(d6 := high)
    case D7 => l.(d7 := high)
  }

  /** D4..D7 driven from bits 0..3 of `num`, each `(num >> k) & 0x1` compared with `GPIO_PIN_SET`. */
  function DataLines(l: Lines, num: byte): Lines
  {
    l.(d4 := num % 2 == GPIO_PIN_SET, d5 := (num / 2) % 2 == GPIO_PIN_SET,
       d6 := (num / 4) % 2 == GPIO_PIN_SET, d7 := (num / 8) % 2 == GPIO_PIN_SET)
  }

  /** The four data lines carry the low nibble of `num`. */
  lemma DataLinesNibble(l: Lines, num: byte)
    ensures NibbleOf(DataLines(l, num)) == num % 16
  {
    NibbleBits(num);
  }

  /** A byte's low nibble is the sum of its bits 0..3. */
  lemma NibbleBits(num: byte)
    ensures num % 16 == 8 * ((num / 8) % 2) + 4 * ((num / 4) % 2) + 2 * ((num / 2) % 2) + num % 2
  {
    var h1, h2, h3, h4 := num / 2, num / 4, num / 8, num / 16;
    assert h2 == h1 / 2;
    assert h3 == h2 / 2;
    assert h4 == h3 / 2;
  }

  /** EN driven low while it is high: the edge on which the controller latches. */
  predicate FallingEdge(l: Lines, pin: Pin, value: byte)
  {
    pin == EN && l.en && value != GPIO_PIN_SET
  }

  /** The four data writes of `write_4_bits`, one after the other, drive the data lines from `num`. */
  lemma DriveData(l: Lines, num: byte)
    ensures Drive(Drive(Drive(Drive(l, D4, num % 2 == GPIO_PIN_SET), D5, (num / 2) % 2 == GPIO_PIN_SET),
      D6, (num / 4) % 2 == GPIO_PIN_SET), D7, (num / 8) % 2 == GPIO_PIN_SET) == DataLines(l, num)
  {
  }

  /** The nibbles of one byte: the high one, then the low one, both written (RW low). */
  function ByteLatches(rs: bool, value: byte): (r: seq<Latch>)
    ensures |r| == 2
  {
    [Latch(rs, false, value / 16), Latch(rs, false, value % 16)]
  }

  /** The lines once a byte has been sent: every line is set by the transfer, so the earlier levels do not matter. */
  function AfterByte(rs: bool, value: byte): Lines
  {
    DataLines(Lines(rs, false, false, false, false, false, false), value % 16)
  }

  /** Both halves of a byte are nibbles, so `& 0x0F` leaves them as they are. */
  lemma NibbleSplit(value: byte)
    ensures value / 16 < 16 && (value / 16) % 16 == value / 16 && (value % 16) % 16 == value % 16
  {
  }

  /** The nibbles of a sequence of characters. */
  function CharLatches(s: seq<byte>): (r: seq<Latch>)
    ensures |r| == 2 * |s|
  {
    if s == [] then [] else ByteLatches(true, s[0]) + CharLatches(s[1..])
  }

  /** The controller in 4-bit mode: each pair of nibbles, high one first, is one byte. */
  function Assemble(ls: seq<Latch>): (r: seq<Transfer>)
    requires |ls| % 2 == 0
    ensures |r| == |ls| / 2
  {
    if ls == [] then [] else [Transfer(ls[0].rs, ls[0].nibble * 16 + ls[1].nibble)] + Assemble(ls[2..])
  }

  /** A byte sent as two nibbles is assembled back into that byte. */
  lemma AssembleByte(rs: bool, value: byte)
    ensures Assemble(ByteLatches(rs, value)) == [Transfer(rs, value)]
  {
    var ls := ByteLatches(rs, value);
    assert ls[2..] == [];
  }

  /** Splitting the nibbles of two byte sequences splits the bytes. */
  lemma {:induction false} AssembleAppend(a: seq<Latch>, b: seq<Latch>)
    requires |a| % 2 == 0 && |b| % 2 == 0
    ensures Assemble(a + b) == Assemble(a) + Assemble(b)
  {
    if a != [] {
      assert (a + b)[2..] == a[2..] + b;
      AssembleAppend(a[2..], b);
    } else {
      assert a + b == b;
    }
  }

  /** A string's nibbles are assembled back into exactly its characters, in order. */
  lemma {:induction false} AssembleChars(s: seq<byte>)
    ensures |Assemble(CharLatches(s))| == |s|
    ensures forall i :: 0 <= i < |s| ==> Assemble(CharLatches(s))[i] == Transfer(true, s[i])
  {
    if s != [] {
      AssembleAppend(ByteLatches(true, s[0]), CharLatches(s[1..]));
      AssembleByte(true, s[0]);
      AssembleChars(s[1..]);
      assert Assemble(CharLatches(s)) == [Transfer(true, s[0])] + Assemble(CharLatches(s[1..]));
    }
  }

  /** The characters `lcd_print_string` sends for a pointer whose bytes are `mem`: one past the first NUL at index 1 or later. */
  function NulFrom(mem: seq<byte>, i: nat): (k: nat)
    requires i < |mem| && 0 in mem[i..]
    ensures i <= k < |mem| && mem[k] == 0
    ensures forall j :: i <= j < k ==> mem[j] != 0
    decreases |mem| - i
  {
    if mem[i] == 0 then i
    else
      assert mem[i..][0] != 0;
      assert mem[i..] == [mem[i]] + mem[i + 1..];
      NulFrom(mem, i + 1)
  }

  /** A non-empty string is sent exactly: the characters up to, and without, its terminator. */
  lemma PrintsNonEmptyString(mem: seq<byte>, n: nat)
    requires 1 <= n < |mem| && mem[n] == 0 && forall j :: 0 <= j < n ==> mem[j] != 0
    ensures 0 in mem[1..]
    ensures NulFrom(mem, 1) == n
  {
    assert mem[1..][n - 1] == 0;
  }

  /**
   * The empty string is not: the loop sends its NUL before any test and then
   * reads past the terminator, sending every byte up to the next NUL.
   */
  lemma PrintsPastEmptyString(mem: seq<byte>)
    requires |mem| >= 2 && mem[0] == 0 && 0 in mem[1..]
    ensures NulFrom(mem, 1) >= 1 && mem[..NulFrom(mem, 1)][0] == 0
    ensures mem[..NulFrom(mem, 1)] == [0] + mem[1..NulFrom(mem, 1)]
  {
  }

  /** `x | 0x80` on a `uint8_t`: bit 7 set. */
  function Or80(x: byte): byte
  {
    if x >= 0x80 then x else x + 0x80
  }

  /** `x | 0xC0` on a `uint8_t`: bits 7 and 6 set. */
  function OrC0(x: byte): byte
  {
    0xC0 + x % 0x40
  }

  /** HD44780 "Set DDRAM address" for a 2-line display: line 1 starts at address 0, line 2 at 0x40. */
  function DdramAddress(row: byte, column: byte): int
  {
    (if row == 2 then 0x40 else 0) + column - 1
  }

  /** The command `lcd_set_cursor` sends: `--column`, wrapping at 0, then `| 0x80` for row 1 and `| 0xC0` for row 2; nothing for any other row. */
  function CursorCommand(row: byte, column: byte): (r: Option<byte>)
    ensures r.Some? <==> row == 1 || row == 2
  {
    var col := (column + 255) % 256;
    if row == 1 then Some(Or80(col))
    else if row == 2 then Some(OrC0(col))
    else None
  }

  /** On the 2 x 16 display every position becomes the command "set DDRAM address" (0x80 plus the address) for that position. */
  lemma CursorAddress(row: byte, column: byte)
    requires 1 <= row <= 2 && 1 <= column <= 16
    ensures 0 <= DdramAddress(row, column) < 0x80
    ensures CursorCommand(row, column) == Some(0x80 + DdramAddress(row, column))
  {
  }

  /** Column 0 wraps to 255: row 1, column 0 sends 0xFF, the same command as row 2, column 64. */
  lemma CursorColumnZero()
    ensures CursorCommand(1, 0) == Some(0xFF) && CursorCommand(2, 64) == Some(0xFF)
  {
  }

  /** The raw nibbles 0x3, 0x3, 0x3, 0x2 of "initializing by instruction", which leave the controller in 4-bit mode. */
  function ModeLatches(): seq<Latch>
  {
    [Latch(false, false, 3), Latch(false, false, 3), Latch(false, false, 3), Latch(false, false, 2)]
  }

  /** The nibbles of the tail of `lcd_init`: the three 0x3 and the 0x2 that select 4-bit mode, then four commands. */
  function InitLatches(): (r: seq<Latch>)
    ensures |r| == 12
  {
    ModeLatches() + ByteLatches(false, LCD_CMD_4DL_2N_5X8F) + ByteLatches(false, LCD_CMD_DON_CURON)
    + ByteLatches(false, LCD_CMD_DIS_CLEAR) + ByteLatches(false, LCD_CMD_INCADD)
  }

  /** After the mode nibbles the controller reads function set, display on, clear and entry mode, in that order. */
  lemma InitCommands()
    ensures InitLatches()[..4] == ModeLatches()
    ensures Assemble(InitLatches()[4..]) == [Transfer(false, LCD_CMD_4DL_2N_5X8F), Transfer(false, LCD_CMD_DON_CURON),
                                              Transfer(false, LCD_CMD_DIS_CLEAR), Transfer(false, LCD_CMD_INCADD)]
  {
    var a, b, c, d := ByteLatches(false, LCD_CMD_4DL_2N_5X8F), ByteLatches(false, LCD_CMD_DON_CURON),
                      ByteLatches(false, LCD_CMD_DIS_CLEAR), ByteLatches(false, LCD_CMD_INCADD);
    assert InitLatches()[4..] == a + b + c + d;
    AssembleAppend(a + b + c, d);
    AssembleAppend(a + b, c);
    AssembleAppend(a, b);
    AssembleByte(false, LCD_CMD_4DL_2N_5X8F);
    AssembleByte(false, LCD_CMD_DON_CURON);
    AssembleByte(false, LCD_CMD_DIS_CLEAR);
    AssembleByte(false, LCD_CMD_INCADD);
  }

  /** The LCD's lines and what the controller has taken in. */
  class LcdBus {
    var lines: Lines
    var received: seq<Latch>

    constructor (lines: Lines)
      ensures this.lines == lines && received == []
    {
      this.lines := lines;
      received := [];
    }

    /** `GPIO_WriteToOutputPin` on one LCD line: high for `GPIO_PIN_SET`; EN going low latches a nibble. */
    method WritePin(pin: Pin, value: byte)
      modifies this
      ensures lines == Drive(old(lines), pin, value == GPIO_PIN_SET)
      ensures FallingEdge(old(lines), pin, value) ==> received == old(received) + [Latch(old(lines).rs, old(lines).rw, NibbleOf(old(lines)))]
      ensures !FallingEdge(old(lines), pin, value) ==> received == old(received)
    {
      if FallingEdge(lines, pin, value) {
        received := received + [Latch(lines.rs, lines.rw, NibbleOf(lines))];
      }
      lines := Drive(lines, pin, value == GPIO_PIN_SET);
    }

    /** `lcd_enable`: EN high, then low, which latches the lines. */
    method Enable()
      modifies this
      ensures lines == old(lines).(en := false)
      ensures received == old(received) + [Latch(old(lines).rs, old(lines).rw, NibbleOf(old(lines)))]
    {
      WritePin(EN, GPIO_PIN_SET);
      assert lines == old(lines).(en := true);
      WritePin(EN, GPIO_PIN_RESET);
    }

    /** `write_4_bits`: D4..D7 from bits 0..3, then an EN pulse; the controller takes in the low nibble of `num`. */
    method WriteFourBits(num: byte)
      modifies this
      ensures lines == DataLines(old(lines), num).(en := false)
      ensures received == old(received) + [Latch(old(lines).rs, old(lines).rw, num % 16)]
    {
      WritePin(D4, num % 2);
      WritePin(D5, (num / 2) % 2);
      WritePin(D6, (num / 4) % 2);
      WritePin(D7, (num / 8) % 2);
      DriveData(old(lines), num);
      DataLinesNibble(old(lines), num);
      Enable();
    }

    /** RS to the given level, RW low, then the high and the low nibble of `value`. */
    method SendByte(rs: byte, value: byte, high: byte)
      requires high == value / 16
      modifies this
      ensures lines == AfterByte(rs == GPIO_PIN_SET, value)
      ensures received == old(received) + ByteLatches(rs == GPIO_PIN_SET, value)
    {
      NibbleSplit(value);
      WritePin(RS, rs);
      WritePin(RW, GPIO_PIN_RESET);
      ghost var start := received;
      WriteFourBits(high);
      ghost var mid := received;
      assert mid == start + [Latch(rs == GPIO_PIN_SET, false, value / 16)];
      WriteFourBits(value % 16);
      assert received == mid + [Latch(rs == GPIO_PIN_SET, false, value % 16)];
      Seqs.Snoc2(start, Latch(rs == GPIO_PIN_SET, false, value / 16), Latch(rs == GPIO_PIN_SET, false, value % 16));
    }

    /** `lcd_send_command`: RS and RW low, then `cmd >> 4` before `cmd & 0xF`. */
    method SendCommand(cmd: byte)
      modifies this
      ensures lines == AfterByte(false, cmd)
      ensures received == old(received) + ByteLatches(false, cmd)
    {
      SendByte(GPIO_PIN_RESET, cmd, (cmd / 16) % 16);
    }

    /** `lcd_print_char`: the same with RS high. */
    method PrintChar(data: byte)
      modifies this
      ensures lines == AfterByte(true, data)
      ensures received == old(received) + ByteLatches(true, data)
    {
      SendByte(GPIO_PIN_SET, data, data / 16);
    }

    /**
     * `lcd_print_string` on a pointer whose bytes are `mem`: a do-while that
     * sends a character before it tests the next one for NUL.
     */
    method PrintString(mem: seq<byte>)
      requires |mem| >= 2 && 0 in mem[1..]
      modifies this
      ensures received == old(received) + CharLatches(mem[..NulFrom(mem, 1)])
      ensures lines == AfterByte(true, mem[NulFrom(mem, 1) - 1])
    {
      var i := 0;
      PrintChar(mem[i]);
      i := i + 1;
      assert mem[..1] == [mem[0]];
      while mem[i] != 0
        invariant 1 <= i <= NulFrom(mem, 1)
        invariant received == old(received) + CharLatches(mem[..i])
        invariant lines == AfterByte(true, mem[i - 1])
        decreases |mem| - i
      {
        PrintChar(mem[i]);
        CharLatchesSnoc(mem[..i], mem[i]);
        assert mem[..i + 1] == mem[..i] + [mem[i]];
        i := i + 1;
      }
    }

    /** `lcd_display_clear`. */
    method DisplayClear()
      modifies this
      ensures lines == AfterByte(false, LCD_CMD_DIS_CLEAR)
      ensures received == old(received) + ByteLatches(false, LCD_CMD_DIS_CLEAR)
    {
      SendCommand(LCD_CMD_DIS_CLEAR);
    }

    /** `lcd_display_return_home`. */
    method ReturnHome()
      modifies this
      ensures lines == AfterByte(false, LCD_CMD_DIS_RETURN_HOME)
      ensures received == old(received) + ByteLatches(false, LCD_CMD_DIS_RETURN_HOME)
    {
      SendCommand(LCD_CMD_DIS_RETURN_HOME);
    }

    /** `lcd_set_cursor`: the command of `CursorCommand`, or nothing for a row other than 1 and 2. */
    method SetCursor(row: byte, column: byte)
      modifies this
      ensures CursorCommand(row, column).Some? ==> received == old(received) + ByteLatches(false, CursorCommand(row, column).value)
      ensures CursorCommand(row, column).None? ==> received == old(received) && lines == old(lines)
    {
      var col := (column + 255) % 256;
      if row == 1 {
        SendCommand(Or80(col));
      } else if row == 2 {
        SendCommand(OrC0(col));
      }
    }

    /** The first step of `lcd_init` after the GPIO set-up: RS, RW, EN and D4..D7 driven low, in that order. */
    method ResetLines()
      modifies this
      ensures lines == Lines(false, false, false, false, false, false, false)
      ensures received == old(received) + if old(lines).en then [Latch(false, false, NibbleOf(old(lines)))] else []
    {
      WritePin(RS, GPIO_PIN_RESET);
      WritePin(RW, GPIO_PIN_RESET);
      WritePin(EN, GPIO_PIN_RESET);
      WritePin(D4, GPIO_PIN_RESET);
      WritePin(D5, GPIO_PIN_RESET);
      WritePin(D6, GPIO_PIN_RESET);
      WritePin(D7, GPIO_PIN_RESET);
    }

    /**
     * `lcd_init` after the GPIO set-up: every line low, then RS and RW low
     * again, the mode nibbles and the four commands. EN going low at the
     * start latches a stray nibble when EN was high before.
     */
    method Init()
      modifies this
      ensures received == old(received)
        + (if old(lines).en then [Latch(false, false, NibbleOf(old(lines)))] else [])
        + InitLatches()
      ensures lines == AfterByte(false, LCD_CMD_INCADD)
    {
      ResetLines();
      ghost var start := received;
      WritePin(RS, GPIO_PIN_RESET);
      WritePin(RW, GPIO_PIN_RESET);
      WriteFourBits(0x3);
      WriteFourBits(0x3);
      WriteFourBits(0x3);
      WriteFourBits(0x2);
      Seqs.Snoc4(start, Latch(false, false, 3), Latch(false, false, 3), Latch(false, false, 3), Latch(false, false, 2));
      ghost var mode := received;
      assert mode == start + ModeLatches();
      SendCommand(LCD_CMD_4DL_2N_5X8F);
      SendCommand(LCD_CMD_DON_CURON);
      DisplayClear();
      SendCommand(LCD_CMD_INCADD);
      Seqs.Regroup5(start, ModeLatches(), ByteLatches(false, LCD_CMD_4DL_2N_5X8F), ByteLatches(false, LCD_CMD_DON_CURON),
        ByteLatches(false, LCD_CMD_DIS_CLEAR), ByteLatches(false, LCD_CMD_INCADD));
    }
  }

  /** Appending one character appends its two nibbles. */
  lemma {:induction false} CharLatchesSnoc(s: seq<byte>, c: byte)
    ensures CharLatches(s + [c]) == CharLatches(s) + ByteLatches(true, c)
  {
    if s == [] {
      assert [c][1..] == [];
    } else {
      assert (s + [c])[1..] == s[1..] + [c];
      CharLatchesSnoc(s[1..], c);
    }
  }
}
