/**
 * The text of the "files copied" notification: the decimal rendering of the
 * file count, and the choice between the singular and the plural wording.
 */
module Report {

  predicate IsDigit(c: char) {
    '0' <= c <= '9'
  }

  predicate AllDigits(s: string) {
    forall i :: 0 <= i < |s| ==> IsDigit(s[i])
  }

  function DigitChar(d: nat): (c: char)
    requires d < 10
    ensures IsDigit(c) && (c as int) - ('0' as int) == d
  {
    ((d + '0' as int) as char)
  }

  /** The decimal rendering of `n`, as a string template writes an `Int`: digits
      only, and no leading zero unless `n` is zero. */
  function NatToString(n: nat): (s: string)
    ensures s != [] && AllDigits(s)
    ensures s[0] == '0' ==> n == 0 && s == "0"
    ensures |s| == 1 <==> n < 10
  {
    if n < 10 then [DigitChar(n)]
    else
      var prefix := NatToString(n / 10);
      prefix + [DigitChar(n % 10)]
  }

  /** The number a string of decimal digits denotes. */
  function DecimalValue(s: string): nat
    requires AllDigits(s)
  {
    if s == [] then 0
    else 10 * DecimalValue(s[..|s| - 1]) + ((s[|s| - 1] as int) - ('0' as int))
  }

  /** Reading back the rendering of `n` gives `n`. */
  lemma {:induction false} DecimalRoundTrip(n: nat)
    ensures DecimalValue(NatToString(n)) == n
  {
    if n >= 10 {
      DecimalRoundTrip(n / 10);
      var s := NatToString(n);
      assert s[..|s| - 1] == NatToString(n / 10);
    }
  }

  /** The count message: "1 file copied." for one file, "<n> files copied."
      otherwise (zero included). */
  function FileCountMessage(fileCount: nat): string {
    if fileCount == 1 then "1 file copied."
    else NatToString(fileCount) + " files copied."
  }

  /** The singular wording is used for exactly one file; every other count is
      written in decimal in front of the plural wording, and can be read back. */
  lemma FileCountMessageForms(fileCount: nat)
    ensures FileCountMessage(fileCount) == "1 file copied." <==> fileCount == 1
    ensures fileCount != 1 ==>
      exists digits :: AllDigits(digits) && FileCountMessage(fileCount) == digits + " files copied."
                       && DecimalValue(digits) == fileCount
  {
    if fileCount != 1 {
      var digits := NatToString(fileCount);
      DecimalRoundTrip(fileCount);
      assert |FileCountMessage(fileCount)| == |digits| + 14;
      assert FileCountMessage(fileCount) == digits + " files copied.";
    }
  }
}
