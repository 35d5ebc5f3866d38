/**
 * The timecode text of the trim command: `f'00:00:{x:0>4.1f}'`, hours and
 * minutes fixed at zero, the seconds right-aligned in a field of width 4
 * filled with '0', one digit after the point. Seconds are counted here as
 * a whole number of tenths instead of a float.
 */
module Timecodes {
  import opened Results

  predicate IsDigit(c: char)
  {
    '0' <= c <= '9'
  }

  function DigitChar(d: nat): (c: char)
    requires d < 10
    ensures IsDigit(c)
  {
    ('0' as int + d) as char
  }

  function DigitValue(c: char): (d: nat)
    requires IsDigit(c)
    ensures d < 10 && DigitChar(d) == c
  {
    c as int - '0' as int
  }

  /** `str(n)` for a non-negative integer: its decimal digits, no leading zero. */
  function Decimal(n: nat): (s: string)
    ensures |s| >= 1 && AllDigits(s)
    ensures n >= 10 <==> |s| >= 2
    ensures n >= 10 ==> s[0] != '0'
  {
    if n < 10 then [DigitChar(n)] else Decimal(n / 10) + [DigitChar(n % 10)]
  }

  /** Right alignment in a field of `width` characters filled with `fill`. */
  function PadLeft(s: string, width: nat, fill: char): string
  {
    if |s| >= width then s else seq(width - |s|, _ => fill) + s
  }

  /** `format(tenths / 10, '.1f')`. */
  function FixedOneDecimal(tenths: nat): string
  {
    Decimal(tenths / 10) + ['.', DigitChar(tenths % 10)]
  }

  /** `f'00:00:{tenths / 10:0>4.1f}'`. */
  function Timecode(tenths: nat): string
  {
    "00:00:" + PadLeft(FixedOneDecimal(tenths), 4, '0')
  }

  /** The value of a string of decimal digits (leading zeros allowed). */
  function ParseDecimal(s: string): nat
    requires AllDigits(s)
  {
    if |s| == 0 then 0 else ParseDecimal(s[..|s| - 1]) * 10 + DigitValue(s[|s| - 1])
  }

  predicate AllDigits(s: string)
  {
    forall i :: 0 <= i < |s| ==> IsDigit(s[i])
  }

  /** Reads the tenths back out of an `S.s` seconds field with at least one digit before the point. */
  function ParseSeconds(field: string): Option<nat>
  {
    if |field| >= 3 && field[|field| - 2] == '.' && IsDigit(field[|field| - 1]) && AllDigits(field[..|field| - 2])
    then Some(ParseDecimal(field[..|field| - 2]) * 10 + DigitValue(field[|field| - 1]))
    else None
  }

  /** Reads the tenths back out of a `00:00:S.s` timecode. */
  function ParseTimecode(s: string): Option<nat>
  {
    if |s| >= 6 && s[..6] == "00:00:" then ParseSeconds(s[6..]) else None
  }

  lemma {:induction false} ParseDecimalOfDecimal(n: nat)
    ensures ParseDecimal(Decimal(n)) == n
  {
    if n >= 10 {
      var s := Decimal(n);
      assert s[..|s| - 1] == Decimal(n / 10);
      ParseDecimalOfDecimal(n / 10);
    }
  }

  lemma {:induction false} ParseDecimalLeadingZero(s: string)
    requires AllDigits(s)
    ensures ParseDecimal(['0'] + s) == ParseDecimal(s)
  {
    if |s| > 0 {
      assert (['0'] + s)[..|s|] == ['0'] + s[..|s| - 1];
      ParseDecimalLeadingZero(s[..|s| - 1]);
    }
  }

  lemma ParseSecondsParts(digits: string, last: char)
    requires |digits| >= 1 && AllDigits(digits)
    requires IsDigit(last)
    ensures ParseSeconds(digits + ['.', last]) == Some(ParseDecimal(digits) * 10 + DigitValue(last))
  {
    var field := digits + ['.', last];
    assert field[..|field| - 2] == digits;
  }

  lemma ParseTimecodePrefix(field: string)
    ensures ParseTimecode("00:00:" + field) == ParseSeconds(field)
  {
    var s := "00:00:" + field;
    assert s[..6] == "00:00:" && s[6..] == field;
  }

  /** Every timecode reads back as the tenths it was made from: the whole value
      lands in the seconds field, however large, and nothing is carried into
      the minutes or hours. */
  lemma TimecodeRoundTrip(tenths: nat)
    ensures ParseTimecode(Timecode(tenths)) == Some(tenths)
  {
    var d := Decimal(tenths / 10);
    var last := DigitChar(tenths % 10);
    ParseDecimalOfDecimal(tenths / 10);
    var field := PadLeft(FixedOneDecimal(tenths), 4, '0');
    ParseTimecodePrefix(field);
    if |d| >= 2 {
      assert field == d + ['.', last];
      ParseSecondsParts(d, last);
    } else {
      assert field == (['0'] + d) + ['.', last];
      ParseDecimalLeadingZero(d);
      ParseSecondsParts(['0'] + d, last);
    }
  }

  /** Below 100 seconds the text is exactly `00:00:SS.s`: ten characters, the
      seconds as two zero-padded digits, then the point and the tenths digit. */
  lemma TimecodeShortForm(tenths: nat)
    requires tenths <= 999
    ensures Timecode(tenths) == "00:00:" + [DigitChar(tenths / 100), DigitChar(tenths / 10 % 10), '.', DigitChar(tenths % 10)]
    ensures |Timecode(tenths)| == 10
  {
    if tenths >= 100 {
      assert Decimal(tenths / 10) == Decimal(tenths / 100) + [DigitChar(tenths / 10 % 10)];
    }
  }

  /** From 100 seconds on, the seconds field outgrows its width of two digits:
      the text gets longer than ten characters rather than rolling over into minutes. */
  lemma TimecodeNoRollover(tenths: nat)
    requires tenths >= 1000
    ensures |Timecode(tenths)| > 10
    ensures Timecode(tenths)[..6] == "00:00:"
  {
    assert Decimal(tenths / 10) == Decimal(tenths / 100) + [DigitChar(tenths / 10 % 10)];
  }

  /** A timecode never contains a space, so the argument splitting keeps it in one piece. */
  lemma TimecodeHasNoSpace(tenths: nat)
    ensures ' ' !in Timecode(tenths)
  {
    var d := Decimal(tenths / 10);
    assert forall i :: 0 <= i < |d| ==> d[i] != ' ';
  }
}
