/**
 The character and string primitives both validators rely on: Java's
 `Character.isLetter`, `Character.isDigit`, `String.toUpperCase` and
 `String.valueOf(int)`, restricted to the ASCII range (A-Z, a-z, 0-9).
 */
module Text {

  predicate IsDigit(c: char) {
    '0' <= c <= '9'
  }

  predicate IsUpperLetter(c: char) {
    'A' <= c <= 'Z'
  }

  predicate IsLowerLetter(c: char) {
    'a' <= c <= 'z'
  }

  predicate IsLetter(c: char) {
    IsUpperLetter(c) || IsLowerLetter(c)
  }

  predicate AllDigits(s: string) {
    forall i :: 0 <= i < |s| ==> IsDigit(s[i])
  }

  predicate AllLetters(s: string) {
    forall i :: 0 <= i < |s| ==> IsLetter(s[i])
  }

  /* ---------------------------------------------------------------------
     Upper-casing
     --------------------------------------------------------------------- */

  /** Position of a letter in the alphabet, whatever its case. */
  function AlphabetIndex(c: char): (k: int)
    requires IsLetter(c)
    ensures 0 <= k < 26
  {
    if IsUpperLetter(c) then c as int - 'A' as int else c as int - 'a' as int
  }

  /** Two characters are the same letter up to case, or identical. */
  predicate SameIgnoringCase(a: char, b: char) {
    a == b || (IsLetter(a) && IsLetter(b) && AlphabetIndex(a) == AlphabetIndex(b))
  }

  /** Two strings of the same length that agree position by position up to case. */
  predicate Agree(a: string, b: string) {
    |a| == |b| && forall i :: 0 <= i < |a| ==> SameIgnoringCase(a[i], b[i])
  }

  lemma SameIgnoringCaseTransitive(a: char, b: char, c: char)
    requires SameIgnoringCase(a, b) && SameIgnoringCase(b, c)
    ensures SameIgnoringCase(a, c)
  {
  }

  /** `Character.toUpperCase` on one character. */
  function UpperChar(c: char): (u: char)
    ensures IsLetter(u) == IsLetter(c)
    ensures IsLetter(c) ==> IsUpperLetter(u) && AlphabetIndex(u) == AlphabetIndex(c)
    ensures !IsLetter(c) ==> u == c
  {
    if IsLowerLetter(c) then (c as int - 32) as char else c
  }

  /** Upper-casing identifies exactly the characters that agree up to case. */
  lemma UpperCharEqual(a: char, b: char)
    ensures UpperChar(a) == UpperChar(b) <==> SameIgnoringCase(a, b)
  {
  }

  /** `String.toUpperCase`, character by character. */
  function Upper(s: string): (r: string)
    ensures |r| == |s|
    ensures forall i :: 0 <= i < |s| ==> r[i] == UpperChar(s[i])
  {
    if s == [] then [] else [UpperChar(s[0])] + Upper(s[1..])
  }

  /** Upper-casing a prefix is taking the prefix of the upper-cased string. */
  lemma UpperPrefix(s: string, k: nat)
    requires k <= |s|
    ensures Upper(s[..k]) == Upper(s)[..k]
  {
  }

  /** Two strings upper-case to the same string exactly when they agree up to case. */
  lemma UpperEqual(a: string, b: string)
    ensures Upper(a) == Upper(b) <==> Agree(a, b)
  {
  }

  /* ---------------------------------------------------------------------
     Decimal numerals
     --------------------------------------------------------------------- */

  function DigitChar(d: nat): (c: char)
    requires d < 10
    ensures IsDigit(c)
  {
    ('0' as int + d) as char
  }

  function DigitValue(c: char): (d: nat)
    requires IsDigit(c)
    ensures d < 10 && DigitChar(d) == c
  {
    c as int - '0' as int
  }

  /** The number a string of decimal digits denotes (most significant first). */
  function DecimalValue(s: string): nat
    requires AllDigits(s)
  {
    if s == [] then 0 else 10 * DecimalValue(s[..|s| - 1]) + DigitValue(s[|s| - 1])
  }

  /** `String.valueOf(n)` for a non-negative `n`: the shortest decimal numeral. */
  function DecimalString(n: nat): (r: string)
    ensures AllDigits(r)
    ensures |r| >= 1 && (n >= 10 ==> r[0] != '0')
    ensures n < 10 <==> |r| == 1
    ensures n < 100 <==> |r| <= 2
  {
    if n < 10 then [DigitChar(n)] else DecimalString(n / 10) + [DigitChar(n % 10)]
  }

  /** Reading back a formatted number gives the number. */
  lemma {:induction false} DecimalRoundTrip(n: nat)
    ensures DecimalValue(DecimalString(n)) == n
  {
    var s := DecimalString(n);
    if n < 10 {
      assert s[..0] == [];
    } else {
      DecimalRoundTrip(n / 10);
      assert s[..|s| - 1] == DecimalString(n / 10);
    }
  }

  /**
   The formatting used for the date fields of a RAMQ number: a leading "0"
   when the value is below 10, otherwise the plain numeral.
   */
  function ZeroPad2(n: nat): (r: string)
    ensures AllDigits(r) && DecimalValue(r) == n
    ensures n < 100 <==> |r| == 2
  {
    DecimalRoundTrip(n);
    if n < 10 then
      var r := "0" + DecimalString(n);
      assert r[..1] == "0" && r[..1][..0] == [];
      r
    else
      DecimalString(n)
  }

  /** The value of a two-digit string, digit by digit. */
  lemma TwoDigitValue(s: string)
    requires |s| == 2 && AllDigits(s)
    ensures DecimalValue(s) == 10 * DigitValue(s[0]) + DigitValue(s[1])
  {
    assert s[..1] == [s[0]] && [s[0]][..0] == [];
    assert DecimalValue(s[..1]) == DigitValue(s[0]);
  }

  /** Two two-digit strings denoting the same number are the same string. */
  lemma TwoDigitsEqual(a: string, b: string)
    requires |a| == 2 && |b| == 2 && AllDigits(a) && AllDigits(b)
    requires DecimalValue(a) == DecimalValue(b)
    ensures a == b
  {
  }

  /** A two-digit string is the padded form of the number it denotes, and of no other. */
  lemma {:induction false} ZeroPad2Unique(s: string, n: nat)
    requires |s| == 2
    ensures s == ZeroPad2(n) <==> AllDigits(s) && DecimalValue(s) == n
  {
    if AllDigits(s) && DecimalValue(s) == n {
      var hi, lo := DigitValue(s[0]), DigitValue(s[1]);
      assert s[..1] == [s[0]] && [s[0]][..0] == [];
      assert DecimalValue(s[..1]) == hi;
      assert n == 10 * hi + lo;
      if hi == 0 {
        assert ZeroPad2(n) == ['0', DigitChar(lo)];
      } else {
        assert n / 10 == hi && n % 10 == lo;
        assert DecimalString(hi) == [DigitChar(hi)];
        assert ZeroPad2(n) == [DigitChar(hi)] + [DigitChar(lo)];
      }
    }
  }
}
