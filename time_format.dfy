/** The `m:ss` clock text written by the timer tick and by `endGame`: whole
    minutes in decimal, a colon, then the remaining seconds padded on the
    left with '0' to two characters. */
module TimeFormat {
  import opened Options

  /** The character of the decimal digit `d`. */
  function DigitChar(d: nat): char
    requires d < 10
  {
    ('0' as int + d) as char
  }

  predicate IsDigit(c: char)
  {
    '0' <= c <= '9'
  }

  predicate AllDigits(t: string)
  {
    forall k :: 0 <= k < |t| ==> IsDigit(t[k])
  }

  /** The value of a string of decimal digits, most significant first. */
  function DigitsValue(t: string): nat
    requires AllDigits(t)
  {
    if t == [] then 0
    else DigitsValue(t[..|t| - 1]) * 10 + (t[|t| - 1] as int - '0' as int)
  }

  /** Decimal text of `n` without leading zeros, as a template literal
      writes a number. */
  function NatToString(n: nat): string
  {
    if n < 10 then [DigitChar(n)]
    else NatToString(n / 10) + [DigitChar(n % 10)]
  }

  /** `String.prototype.padStart(width, fill)`: `fill` repeated on the left
      up to `width` characters; a text already that long is unchanged. */
  function PadStart(t: string, width: nat, fill: char): string
  {
    if |t| >= width then t else seq(width - |t|, _ => fill) + t
  }

  /** The clock text for `seconds` elapsed seconds. */
  function FormatTime(seconds: nat): string
  {
    var minutes := seconds / 60;
    var secs := seconds % 60;
    NatToString(minutes) + ":" + PadStart(NatToString(secs), 2, '0')
  }

  /** Reads a clock text back: digits, a colon, then exactly two digits
      worth less than 60. */
  function ParseTime(t: string): Option<nat>
  {
    if |t| < 4 then None
    else
      var minutes, secs := t[..|t| - 3], t[|t| - 2..];
      if t[|t| - 3] == ':' && AllDigits(minutes) && AllDigits(secs) && DigitsValue(secs) < 60
      then Some(DigitsValue(minutes) * 60 + DigitsValue(secs))
      else None
  }

  /** The decimal text of `n` is a non-empty digit string whose value is
      `n`; below 10 it is one character and below 100 at most two. */
  lemma {:induction false} NatToStringValue(n: nat)
    ensures |NatToString(n)| >= 1 && AllDigits(NatToString(n))
    ensures DigitsValue(NatToString(n)) == n
    ensures n < 10 ==> |NatToString(n)| == 1
    ensures n < 100 ==> |NatToString(n)| <= 2
  {
    var t := NatToString(n);
    if n >= 10 {
      NatToStringValue(n / 10);
      assert t[..|t| - 1] == NatToString(n / 10);
    }
  }

  /** Leading zeros do not change the value of a digit string. */
  lemma {:induction false} LeadingZeroValue(t: string)
    requires AllDigits(t)
    ensures AllDigits("0" + t) && DigitsValue("0" + t) == DigitsValue(t)
  {
    var z := "0" + t;
    if t != [] {
      assert z[..|z| - 1] == "0" + t[..|t| - 1];
      LeadingZeroValue(t[..|t| - 1]);
    }
  }

  /** The two-character seconds field of the clock text: the digits of
      `seconds % 60`, zero-padded. */
  lemma SecondsField(seconds: nat)
    ensures |PadStart(NatToString(seconds % 60), 2, '0')| == 2
    ensures AllDigits(PadStart(NatToString(seconds % 60), 2, '0'))
    ensures DigitsValue(PadStart(NatToString(seconds % 60), 2, '0')) == seconds % 60
  {
    var t := NatToString(seconds % 60);
    NatToStringValue(seconds % 60);
    if |t| < 2 {
      assert PadStart(t, 2, '0') == "0" + t;
      LeadingZeroValue(t);
    }
  }

  /** The clock text is the minute count `seconds / 60`, a colon and a
      two-digit field worth `seconds % 60 < 60`; the two parts give back
      `seconds` as minutes * 60 + secs. */
  lemma FormatTimeParts(seconds: nat)
    ensures var t := FormatTime(seconds);
      |t| >= 4 && t[|t| - 3] == ':' &&
      t[..|t| - 3] == NatToString(seconds / 60) &&
      AllDigits(t[..|t| - 3]) && AllDigits(t[|t| - 2..]) &&
      DigitsValue(t[..|t| - 3]) == seconds / 60 &&
      DigitsValue(t[|t| - 2..]) == seconds % 60 < 60 &&
      DigitsValue(t[..|t| - 3]) * 60 + DigitsValue(t[|t| - 2..]) == seconds
  {
    var m := NatToString(seconds / 60);
    var ss := PadStart(NatToString(seconds % 60), 2, '0');
    NatToStringValue(seconds / 60);
    SecondsField(seconds);
    var t := FormatTime(seconds);
    assert t == m + ":" + ss;
    assert t[..|t| - 3] == m;
    assert t[|t| - 2..] == ss;
  }

  /** Reading the clock text back gives the elapsed seconds. */
  lemma ParseFormatTime(seconds: nat)
    ensures ParseTime(FormatTime(seconds)) == Some(seconds)
  {
    FormatTimeParts(seconds);
  }
}
