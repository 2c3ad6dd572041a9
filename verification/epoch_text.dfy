/**
  The text form of the stored cursor (`strava_current_epoch`).

  The job stores the cursor as text in its INI configuration and reads it back on
  the next run. This module writes a whole number of seconds as decimal digits and
  gives the value that such a numeral denotes, so that the model can state that a
  cursor written by one run is read back unchanged by the next.
 */
module EpochText {

  predicate IsDigit(c: char) {
    '0' <= c <= '9'
  }

  /** A non-empty string of decimal digits. */
  predicate IsNumeral(s: string) {
    |s| > 0 && forall i :: 0 <= i < |s| ==> IsDigit(s[i])
  }

  function DigitChar(d: nat): (c: char)
    requires d < 10
    ensures IsDigit(c) && c as int - '0' as int == d
  {
    (d + '0' as int) as char
  }

  /** The decimal text of `n`: digits only, most significant first, no leading zero. */
  function Text(n: nat): (s: string)
    ensures IsNumeral(s)
    ensures s[0] == '0' ==> n == 0
    decreases n
  {
    if n < 10 then [DigitChar(n)] else Text(n / 10) + [DigitChar(n % 10)]
  }

  function DigitValue(c: char): nat
    requires IsDigit(c)
  {
    c as int - '0' as int
  }

  /** The number that a string of decimal digits denotes. */
  function Value(s: string): nat
    requires forall i :: 0 <= i < |s| ==> IsDigit(s[i])
    decreases |s|
  {
    if s == [] then 0 else 10 * Value(s[..|s| - 1]) + DigitValue(s[|s| - 1])
  }

  /** Reading back the text of a number gives the number. */
  lemma {:induction false} ValueOfText(n: nat)
    ensures Value(Text(n)) == n
    decreases n
  {
    if n >= 10 {
      var s := Text(n);
      assert s[..|s| - 1] == Text(n / 10);
      ValueOfText(n / 10);
    }
  }
}
