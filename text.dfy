/**
 * Text as the application code writes it into its C buffers, one byte per
 * character: `number_to_string`'s two digits, the `HH:MM:SS` and `DD.MM.YY`
 * layouts built on it, `printf`'s zero-padded decimals, `memcpy`/`sprintf`
 * into a buffer, and C strings (the bytes before the first NUL).
 */
module Text {
  import opened Bits

  const NUL: byte := 0
  /** `'0'`. */
  const ZERO: byte := 48

  /** A string literal as the bytes of its ASCII characters. */
  function Bytes(s: string): (r: seq<byte>)
    requires forall i :: 0 <= i < |s| ==> s[i] as int < 128
    ensures |r| == |s|
    ensures forall i :: 0 <= i < |s| ==> r[i] == s[i] as int
  {
    seq(|s|, i requires 0 <= i < |s| => s[i] as int)
  }

  predicate IsDigit(c: byte)
  {
    ZERO <= c <= ZERO + 9
  }

  /** The value of one decimal digit. */
  function DigitValue(c: byte): (v: nat)
    requires IsDigit(c)
    ensures v <= 9
  {
    c - ZERO
  }

  /** The two characters `number_to_string` writes for a number up to 99. */
  function TwoDigits(num: byte): (d: seq<byte>)
    requires num <= 99
  {
    if num < 10 then [ZERO, num + ZERO] else [num / 10 + ZERO, num % 10 + ZERO]
  }

  /** Two digits are read back as the number they were written for, and no number has two spellings. */
  lemma TwoDigitsValue(num: byte)
    requires num <= 99
    ensures |TwoDigits(num)| == 2 && IsDigit(TwoDigits(num)[0]) && IsDigit(TwoDigits(num)[1])
    ensures DigitValue(TwoDigits(num)[0]) * 10 + DigitValue(TwoDigits(num)[1]) == num
    ensures forall m: byte :: m <= 99 && TwoDigits(m) == TwoDigits(num) ==> m == num
  {
    forall m: byte | m <= 99 && TwoDigits(m) == TwoDigits(num)
      ensures m == num
    {
      assert m / 10 == num / 10 && m % 10 == num % 10;
    }
  }

  /** `memcpy(buf + at, src, |src|)`: `src` in place of the bytes from `at`, the rest kept. */
  function Written(buf: seq<byte>, at: nat, src: seq<byte>): (r: seq<byte>)
    requires at + |src| <= |buf|
    ensures |r| == |buf|
    ensures forall i :: 0 <= i < at ==> r[i] == buf[i]
    ensures forall i :: 0 <= i < |src| ==> r[at + i] == src[i]
    ensures forall i :: at + |src| <= i < |buf| ==> r[i] == buf[i]
  {
    buf[..at] + src + buf[at + |src|..]
  }

  /** A write that covers an earlier one from the same place hides it. */
  lemma WrittenOver(buf: seq<byte>, at: nat, a: seq<byte>, b: seq<byte>)
    requires |a| <= |b| && at + |b| <= |buf|
    ensures Written(Written(buf, at, a), at, b) == Written(buf, at, b)
  {
    assert forall i :: 0 <= i < |buf| ==> Written(Written(buf, at, a), at, b)[i] == Written(buf, at, b)[i];
  }

  /** A shorter write over a longer one from the same place leaves the longer one's tail. */
  lemma WrittenUnder(buf: seq<byte>, at: nat, a: seq<byte>, b: seq<byte>)
    requires |b| <= |a| && at + |a| <= |buf|
    ensures Written(Written(buf, at, a), at, b) == Written(buf, at, b + a[|b|..])
  {
    var l, r := Written(Written(buf, at, a), at, b), Written(buf, at, b + a[|b|..]);
    forall i | 0 <= i < |buf|
      ensures l[i] == r[i]
    {
      if at + |b| <= i < at + |a| {
        assert (b + a[|b|..])[i - at] == a[i - at];
      }
    }
  }

  /** `memcpy(dst + at, src, |src|)`. */
  method Copy(dst: array<byte>, at: nat, src: seq<byte>)
    requires at + |src| <= dst.Length
    modifies dst
    ensures dst[..] == Written(old(dst[..]), at, src)
  {
    forall i | 0 <= i < |src| {
      dst[at + i] := src[i];
    }
  }

  /** `number_to_string(num, &buf[at])`: two digits for a number up to 99; a larger number writes nothing. */
  function PutNumber(buf: seq<byte>, at: nat, num: byte): (r: seq<byte>)
    requires at + 2 <= |buf|
    ensures |r| == |buf|
  {
    if num <= 99 then Written(buf, at, TwoDigits(num)) else buf
  }

  /**
   * `number_to_string` (`Core/Src/main.c` and `Src/016rtc_lcd.c` have the
   * same one): the tens and the units as ASCII digits at `buf[at]` and
   * `buf[at + 1]`, with a leading '0' below ten.
   */
  method NumberToString(num: byte, buf: array<byte>, at: nat)
    requires at + 2 <= buf.Length
    modifies buf
    ensures buf[..] == PutNumber(old(buf[..]), at, num)
  {
    if num < 10 {
      buf[at] := ZERO;
      buf[at + 1] := num + ZERO;
    } else if num >= 10 && num <= 99 {
      buf[at] := num / 10 + ZERO;
      buf[at + 1] := num % 10 + ZERO;
    }
  }

  /**
   * The nine bytes `time_to_string` and `date_to_string` leave: separators at
   * 2 and 5, the three numbers at 0, 3 and 6, then `last` at 8.
   */
  function Clock(buf: seq<byte>, a: byte, b: byte, c: byte, sep: byte, last: byte): (r: seq<byte>)
    requires |buf| >= 9
    ensures |r| == |buf|
  {
    PutNumber(PutNumber(PutNumber(buf[2 := sep][5 := sep], 0, a), 3, b), 6, c)[8 := last]
  }

  /** The bytes at `at` after a number is put there: its digits up to 99, the old bytes otherwise. */
  function Field(buf: seq<byte>, at: nat, num: byte): (f: seq<byte>)
    requires at + 2 <= |buf|
    ensures |f| == 2
  {
    if num <= 99 then TwoDigits(num) else buf[at..at + 2]
  }

  /**
   * The layout: each number's two digits (or, above 99, the bytes that were
   * there before) with the separators between them, `last` at 8, and every
   * byte from 9 on untouched.
   */
  lemma ClockLayout(buf: seq<byte>, a: byte, b: byte, c: byte, sep: byte, last: byte)
    requires |buf| >= 9
    ensures Clock(buf, a, b, c, sep, last)[..9]
      == Field(buf, 0, a) + [sep] + Field(buf, 3, b) + [sep] + Field(buf, 6, c) + [last]
    ensures Clock(buf, a, b, c, sep, last)[9..] == buf[9..]
  {
    var r := Clock(buf, a, b, c, sep, last);
    var f := Field(buf, 0, a) + [sep] + Field(buf, 3, b) + [sep] + Field(buf, 6, c) + [last];
    assert forall i :: 0 <= i < 9 ==> r[i] == f[i];
    assert forall i :: 9 <= i < |buf| ==> r[i] == buf[i];
  }

  /** The value of two digits at `at`. */
  function NumberAt(s: seq<byte>, at: nat): nat
    requires at + 2 <= |s| && IsDigit(s[at]) && IsDigit(s[at + 1])
  {
    DigitValue(s[at]) * 10 + DigitValue(s[at + 1])
  }

  /** Reading the three numbers back from the layout gives the numbers written, when each is at most 99. */
  lemma ClockParsesBack(buf: seq<byte>, a: byte, b: byte, c: byte, sep: byte, last: byte)
    requires |buf| >= 9 && a <= 99 && b <= 99 && c <= 99
    ensures var r := Clock(buf, a, b, c, sep, last);
      IsDigit(r[0]) && IsDigit(r[1]) && IsDigit(r[3]) && IsDigit(r[4]) && IsDigit(r[6]) && IsDigit(r[7])
      && NumberAt(r, 0) == a && NumberAt(r, 3) == b && NumberAt(r, 6) == c
  {
    ClockLayout(buf, a, b, c, sep, last);
    TwoDigitsValue(a);
    TwoDigitsValue(b);
    TwoDigitsValue(c);
    var r := Clock(buf, a, b, c, sep, last);
    assert r[..9] == TwoDigits(a) + [sep] + TwoDigits(b) + [sep] + TwoDigits(c) + [last];
    assert r[0] == r[..9][0] && r[1] == r[..9][1] && r[3] == r[..9][3];
    assert r[4] == r[..9][4] && r[6] == r[..9][6] && r[7] == r[..9][7];
  }

  /** Formatting the same numbers twice into a buffer leaves what formatting once left. */
  lemma ClockTwice(buf: seq<byte>, a: byte, b: byte, c: byte, sep: byte, last: byte)
    requires |buf| >= 9
    ensures Clock(Clock(buf, a, b, c, sep, last), a, b, c, sep, last) == Clock(buf, a, b, c, sep, last)
  {
    var r := Clock(buf, a, b, c, sep, last);
    ClockLayout(buf, a, b, c, sep, last);
    ClockLayout(r, a, b, c, sep, last);
    assert Field(r, 0, a) == Field(buf, 0, a) by { assert r[0..2] == r[..9][0..2]; }
    assert Field(r, 3, b) == Field(buf, 3, b) by { assert r[3..5] == r[..9][3..5]; }
    assert Field(r, 6, c) == Field(buf, 6, c) by { assert r[6..8] == r[..9][6..8]; }
    assert Clock(r, a, b, c, sep, last) == Clock(r, a, b, c, sep, last)[..9] + Clock(r, a, b, c, sep, last)[9..];
    assert r == r[..9] + r[9..];
  }

  /**
   * The four statements shared by every `time_to_string` / `date_to_string`:
   * separators at 2 and 5, three `number_to_string` calls, then `last` at 8.
   */
  method PutClock(buf: array<byte>, a: byte, b: byte, c: byte, sep: byte, last: byte)
    requires buf.Length >= 9
    modifies buf
    ensures buf[..] == Clock(old(buf[..]), a, b, c, sep, last)
  {
    buf[2] := sep;
    buf[5] := sep;
    NumberToString(a, buf, 0);
    NumberToString(b, buf, 3);
    NumberToString(c, buf, 6);
    buf[8] := last;
  }

  /** The text of three numbers up to 99 with a separator between each, as `%02d<sep>%02d<sep>%02d`. */
  function ClockText(a: byte, b: byte, c: byte, sep: byte): (t: seq<byte>)
    requires a <= 99 && b <= 99 && c <= 99
    ensures |t| == 8
  {
    TwoDigits(a) + [sep] + TwoDigits(b) + [sep] + TwoDigits(c)
  }

  /** NUL-terminated at 8, the layout reads as a C string of exactly the eight characters of the three numbers. */
  lemma ClockCString(buf: seq<byte>, a: byte, b: byte, c: byte, sep: byte)
    requires |buf| >= 9 && a <= 99 && b <= 99 && c <= 99 && sep != NUL
    ensures CString(Clock(buf, a, b, c, sep, NUL)) == ClockText(a, b, c, sep)
  {
    var r := Clock(buf, a, b, c, sep, NUL);
    var t := ClockText(a, b, c, sep);
    ClockLayout(buf, a, b, c, sep, NUL);
    assert Field(buf, 0, a) == TwoDigits(a) && Field(buf, 3, b) == TwoDigits(b) && Field(buf, 6, c) == TwoDigits(c);
    assert r[..9] == t + [NUL];
    ClockTextNoNul(a, b, c, sep);
    assert r[..8] == t by { assert r[..8] == r[..9][..8]; }
    assert r[8] == NUL by { assert r[8] == r[..9][8]; }
    CStringOf(r, t);
  }

  lemma ClockTextNoNul(a: byte, b: byte, c: byte, sep: byte)
    requires a <= 99 && b <= 99 && c <= 99 && sep != NUL
    ensures NUL !in ClockText(a, b, c, sep)
  {
    TwoDigitsValue(a);
    TwoDigitsValue(b);
    TwoDigitsValue(c);
    DigitsNotNul(TwoDigits(a));
    DigitsNotNul(TwoDigits(b));
    DigitsNotNul(TwoDigits(c));
  }

  /** The text is `printf`'s `%02d<sep>%02d<sep>%02d`. */
  lemma ClockTextPad(a: byte, b: byte, c: byte, sep: byte)
    requires a <= 99 && b <= 99 && c <= 99
    ensures ClockText(a, b, c, sep) == Pad(a, 2) + [sep] + Pad(b, 2) + [sep] + Pad(c, 2)
  {
    TwoDigitsPad(a);
    TwoDigitsPad(b);
    TwoDigitsPad(c);
  }

  /** A C string's characters: the bytes before the first NUL, or all of them when there is none. */
  function CString(s: seq<byte>): (r: seq<byte>)
    ensures |r| <= |s| && r == s[..|r|]
    ensures NUL !in r
    ensures |r| < |s| ==> s[|r|] == NUL
  {
    if s == [] || s[0] == NUL then [] else [s[0]] + CString(s[1..])
  }

  /** A NUL-terminated text reads back as exactly that text, whatever follows the terminator. */
  lemma CStringOf(s: seq<byte>, t: seq<byte>)
    requires NUL !in t && |t| < |s| && s[..|t|] == t && s[|t|] == NUL
    ensures CString(s) == t
  {
  }

  /** The decimal digits of `n`, most significant first, without leading zeros. */
  function Decimal(n: nat): (d: seq<byte>)
    ensures 1 <= |d|
    ensures forall i :: 0 <= i < |d| ==> IsDigit(d[i])
  {
    if n < 10 then [ZERO + n] else Decimal(n / 10) + [ZERO + n % 10]
  }

  /** The number a string of decimal digits spells. */
  function Value(d: seq<byte>): nat
    requires forall i :: 0 <= i < |d| ==> IsDigit(d[i])
  {
    if d == [] then 0 else Value(d[..|d| - 1]) * 10 + DigitValue(d[|d| - 1])
  }

  /** Decimal digits read back as their number. */
  lemma {:induction false} DecimalValue(n: nat)
    ensures Value(Decimal(n)) == n
  {
    if n >= 10 {
      var d := Decimal(n);
      assert d[..|d| - 1] == Decimal(n / 10);
      DecimalValue(n / 10);
    }
  }

  function Pow10(k: nat): (p: nat)
    ensures p >= 1
  {
    if k == 0 then 1 else 10 * Pow10(k - 1)
  }

  /** A number below 10^w has at most `w` digits, a number of at least 10^(w-1) at least `w`. */
  lemma {:induction false} DecimalLength(n: nat, w: nat)
    requires 1 <= w
    ensures n < Pow10(w) ==> |Decimal(n)| <= w
    ensures n >= Pow10(w - 1) ==> |Decimal(n)| >= w
  {
    if n >= 10 && w >= 2 {
      DecimalLength(n / 10, w - 1);
      assert Pow10(w) == 10 * Pow10(w - 1);
      assert Pow10(w - 1) == 10 * Pow10(w - 2);
    } else if n >= 10 {
      assert w == 1 && Pow10(1) == 10;
    } else if w >= 2 {
      assert Pow10(w - 1) == 10 * Pow10(w - 2);
    }
  }

  /** `printf`'s `%0<width>d` for a non-negative number: its digits, padded on the left with '0' to `width`. */
  function Pad(n: nat, width: nat): (d: seq<byte>)
    ensures forall i :: 0 <= i < |d| ==> IsDigit(d[i])
  {
    var s := Decimal(n);
    if |s| >= width then s else seq(width - |s|, _ => ZERO) + s
  }

  /** Leading zeros add nothing to the value. */
  lemma {:induction false} ValueLeadingZeros(z: nat, s: seq<byte>)
    requires forall i :: 0 <= i < |s| ==> IsDigit(s[i])
    ensures Value(seq(z, _ => ZERO) + s) == Value(s)
    decreases |s|
  {
    var zs := seq(z, _ => ZERO) + s;
    if s == [] {
      ValueZeros(z);
      assert zs == seq(z, _ => ZERO);
    } else {
      assert zs[..|zs| - 1] == seq(z, _ => ZERO) + s[..|s| - 1];
      ValueLeadingZeros(z, s[..|s| - 1]);
    }
  }

  lemma {:induction false} ValueZeros(z: nat)
    ensures Value(seq(z, _ => ZERO)) == 0
  {
    if z > 0 {
      assert seq(z, _ => ZERO)[..z - 1] == seq(z - 1, _ => ZERO);
      ValueZeros(z - 1);
    }
  }

  /** A padded number reads back as itself and is exactly `width` characters when it fits. */
  lemma PadValue(n: nat, width: nat)
    requires 1 <= width
    ensures Value(Pad(n, width)) == n
    ensures n < Pow10(width) ==> |Pad(n, width)| == width
  {
    DecimalValue(n);
    DecimalLength(n, width);
    var s := Decimal(n);
    if |s| < width {
      ValueLeadingZeros(width - |s|, s);
    }
  }

  /** `number_to_string` agrees with `%02d` on every number it writes. */
  lemma TwoDigitsPad(num: byte)
    requires num <= 99
    ensures TwoDigits(num) == Pad(num, 2)
  {
    if num >= 10 {
      assert Decimal(num) == Decimal(num / 10) + [ZERO + num % 10];
    }
  }

  /** Digits are never NUL. */
  lemma DigitsNotNul(d: seq<byte>)
    requires forall i :: 0 <= i < |d| ==> IsDigit(d[i])
    ensures NUL !in d
  {
  }
}
