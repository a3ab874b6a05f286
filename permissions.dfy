/** The mode-string handling of change_permissions: a string of length 3 is
    read digit by digit as a base-8 number, with no check that the digits
    are octal; any other length is refused before chmod is reached. */
module Permissions {

  /** The only length change_permissions accepts. */
  const ModeLength: nat := 3

  /** The outcome of reading a mode string. */
  datatype ParsedMode = InvalidFormat | Mode(value: int)

  /** What change_permissions does: report "Invalid permissions format", or
      call chmod on the file with the computed mode. */
  datatype ModeChange = FormatError | Chmod(fileName: seq<char>, mode: int)

  /** The range of mode_t. Its width is platform-defined; the model takes the
      32-bit unsigned int of Linux with glibc (a 16-bit mode_t, as on macOS
      and FreeBSD, would wrap modulo 2^16 instead). */
  const ModeTModulus: int := 0x1_0000_0000

  /** The int-to-mode_t conversion of the assignment to mode: the value
      modulo 2^32 on a 32-bit mode_t, so a negative sum wraps around. */
  function ToModeT(v: int): (m: int)
    ensures 0 <= m < ModeTModulus
    ensures (m - v) % ModeTModulus == 0
    ensures 0 <= v < ModeTModulus ==> m == v
  {
    v % ModeTModulus
  }

  /** The value a mode character contributes, c - '0', whatever c is. */
  function DigitValue(c: char): int
  {
    c as int - '0' as int
  }

  predicate IsOctalDigit(c: char)
  {
    '0' <= c <= '7'
  }

  predicate IsDecimalDigit(c: char)
  {
    '0' <= c <= '9'
  }

  /** The mode computation of change_permissions: refused unless the string
      has exactly three characters; otherwise 64, 8 and 1 times the three
      digit values, stored in a mode_t. The length stands for strlen, so the
      string is the C string itself, free of NUL, as every token main hands
      over is. */
  function ParseMode(permissions: seq<char>): (r: ParsedMode)
    ensures r.InvalidFormat? <==> |permissions| != ModeLength
    ensures r.Mode? ==> 0 <= r.value < ModeTModulus
  {
    if |permissions| == ModeLength then
      Mode(ToModeT(DigitValue(permissions[0]) * 64 + DigitValue(permissions[1]) * 8 + DigitValue(permissions[2])))
    else
      InvalidFormat
  }

  /** change_permissions(permissions, fileName): a format error and no chmod
      call unless the string has length 3; otherwise chmod on fileName.
      Both strings are C strings without their terminator. */
  function ChangePermissions(permissions: seq<char>, fileName: seq<char>): (r: ModeChange)
    ensures r.FormatError? <==> |permissions| != ModeLength
    ensures r.Chmod? ==> r.fileName == fileName && ParseMode(permissions) == Mode(r.mode)
  {
    match ParseMode(permissions)
    case InvalidFormat => FormatError
    case Mode(m) => Chmod(fileName, m)
  }

  /** Reference: the number the digit string ds denotes in base 8, read from
      the most significant digit. */
  function OctalValue(ds: seq<char>): int
  {
    if ds == [] then 0 else OctalValue(ds[..|ds| - 1]) * 8 + DigitValue(ds[|ds| - 1])
  }

  /** The digit character for an octal digit value. */
  function OctalChar(d: int): (c: char)
    requires 0 <= d < 8
    ensures IsOctalDigit(c) && DigitValue(c) == d
  {
    ('0' as int + d) as char
  }

  /** A mode in 0..511 written as three octal digits, owner first. */
  function FormatMode(m: int): (p: seq<char>)
    requires 0 <= m < 512
    ensures |p| == ModeLength
    ensures forall k :: 0 <= k < |p| ==> IsOctalDigit(p[k])
  {
    [OctalChar(m / 64), OctalChar(m / 8 % 8), OctalChar(m % 8)]
  }

  /** Any three-character string is read as a base-8 numeral, digit by
      digit, and the value is taken modulo 2^32. */
  lemma ParseModeIsBase8(p: seq<char>)
    requires |p| == ModeLength
    ensures OctalValue(p) == DigitValue(p[0]) * 64 + DigitValue(p[1]) * 8 + DigitValue(p[2])
    ensures ParseMode(p) == Mode(ToModeT(OctalValue(p)))
  {
    assert p[..|p| - 1] == p[..2] && p[..2][..1] == p[..1] && p[..1][..0] == [];
    assert OctalValue(p[..1]) == DigitValue(p[0]);
    assert OctalValue(p[..2]) == DigitValue(p[0]) * 8 + DigitValue(p[1]);
  }

  /** Three octal digits give the octal number they denote, which lies in 0..511. */
  lemma OctalModeInRange(p: seq<char>)
    requires |p| == ModeLength && forall k :: 0 <= k < |p| ==> IsOctalDigit(p[k])
    ensures ParseMode(p) == Mode(OctalValue(p))
    ensures 0 <= ParseMode(p).value < 512
  {
    assert IsOctalDigit(p[0]) && IsOctalDigit(p[1]) && IsOctalDigit(p[2]);
    ParseModeIsBase8(p);
  }

  /** Formatting any mode 0..511 as three octal digits and parsing it gives the mode back. */
  lemma FormatThenParse(m: int)
    requires 0 <= m < 512
    ensures ParseMode(FormatMode(m)) == Mode(m)
  {
    var p := FormatMode(m);
    assert DigitValue(p[0]) == m / 64;
    assert DigitValue(p[1]) == m / 8 % 8;
    assert DigitValue(p[2]) == m % 8;
    assert m == (m / 64) * 64 + (m / 8 % 8) * 8 + m % 8;
  }

  /** Parsing three octal digits and formatting the mode gives the string back. */
  lemma ParseThenFormat(p: seq<char>)
    requires |p| == ModeLength && forall k :: 0 <= k < |p| ==> IsOctalDigit(p[k])
    ensures ParseMode(p).Mode? && 0 <= ParseMode(p).value < 512
    ensures FormatMode(ParseMode(p).value) == p
  {
    var a, b, c := DigitValue(p[0]), DigitValue(p[1]), DigitValue(p[2]);
    var m := a * 64 + b * 8 + c;
    assert m / 8 == a * 8 + b;
    assert m / 64 == a;
    assert m / 8 % 8 == b;
    assert m % 8 == c;
    var q := FormatMode(m);
    assert q[0] == p[0] && q[1] == p[1] && q[2] == p[2];
  }

  /** '8' and '9' are not refused: any three decimal digits give a mode,
      between 0 and 657 (the value of "999"). */
  lemma DecimalDigitsAccepted(p: seq<char>)
    requires |p| == ModeLength && forall k :: 0 <= k < |p| ==> IsDecimalDigit(p[k])
    ensures ParseMode(p).Mode? && 0 <= ParseMode(p).value <= 657
  {
    assert IsDecimalDigit(p[0]) && IsDecimalDigit(p[1]) && IsDecimalDigit(p[2]);
  }

  /** Without the digit check, distinct strings can name the same mode, and
      a mode can leave the nine permission bits. */
  lemma NonOctalDigitsQuirk()
    ensures ParseMode("999") == Mode(657)
    ensures ParseMode("080") == ParseMode("100") == Mode(64)
    ensures ParseMode("778") == Mode(512)
  {
  }

  /** A character below '0' can make the sum negative ("/00" gives -64), and
      the mode then wraps around to a large unsigned value; a later digit can
      outweigh it, so that no wrap happens ("/99" gives 17). */
  lemma NegativeModeWraps()
    ensures ParseMode("/00") == Mode(ModeTModulus - 64)
    ensures ParseMode("/99") == Mode(17)
  {
  }
}
