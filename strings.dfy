/** Decimal text of naturals, as JavaScript's template strings print them
    (`t${id}`, `label_${id}`), and its inverse for digit-only lexemes
    (`Number(lexeme)` in the scanner). */
module Strings {

  predicate IsDigit(c: char) { '0' <= c <= '9' }

  predicate AllDigits(s: string) { forall i :: 0 <= i < |s| ==> IsDigit(s[i]) }

  function DigitChar(d: nat): (c: char)
    requires d < 10
    ensures IsDigit(c) && (c as int) - ('0' as int) == d
  {
    ((('0' as int) + d) as char)
  }

  function DigitValue(c: char): nat
    requires IsDigit(c)
  {
    (c as int) - ('0' as int)
  }

  function NatToString(n: nat): (s: string)
    decreases n
  {
    if n < 10 then [DigitChar(n)] else NatToString(n / 10) + [DigitChar(n % 10)]
  }

  /** The value of a run of decimal digits. */
  function DecimalValue(s: string): nat
    requires AllDigits(s)
  {
    if s == [] then 0 else 10 * DecimalValue(s[..|s| - 1]) + DigitValue(s[|s| - 1])
  }

  lemma {:induction false} NatToStringDigits(n: nat)
    ensures |NatToString(n)| > 0 && AllDigits(NatToString(n))
    decreases n
  {
    if n >= 10 { NatToStringDigits(n / 10); }
  }

  /** Reading back the printed digits gives the number. */
  lemma {:induction false} DecimalRoundTrip(n: nat)
    ensures AllDigits(NatToString(n)) && DecimalValue(NatToString(n)) == n
    decreases n
  {
    NatToStringDigits(n);
    var s := NatToString(n);
    if n >= 10 {
      DecimalRoundTrip(n / 10);
      assert s[..|s| - 1] == NatToString(n / 10);
    }
  }

  /** Distinct numbers print as distinct texts: generated names built from
      distinct counter values never collide. */
  lemma NatToStringInjective(a: nat, b: nat)
    requires a != b
    ensures NatToString(a) != NatToString(b)
  {
    DecimalRoundTrip(a);
    DecimalRoundTrip(b);
  }

  /** Names built from the same prefix and distinct counter values differ. */
  lemma PrefixedDistinct(prefix: string, a: nat, b: nat)
    requires a != b
    ensures prefix + NatToString(a) != prefix + NatToString(b)
  {
    NatToStringInjective(a, b);
    assert (prefix + NatToString(a))[|prefix|..] == NatToString(a);
    assert (prefix + NatToString(b))[|prefix|..] == NatToString(b);
  }

  /** The longest run of digits at the end of `s`. */
  function DigitTail(s: string): (t: string)
    ensures AllDigits(t) && |t| <= |s|
    decreases |s|
  {
    if s != [] && IsDigit(s[|s| - 1]) then DigitTail(s[..|s| - 1]) + [s[|s| - 1]] else []
  }

  /** After a non-digit, the trailing digits are exactly the ones appended. */
  lemma {:induction false} DigitTailAfter(p: string, d: string)
    requires AllDigits(d) && (p == [] || !IsDigit(p[|p| - 1]))
    ensures DigitTail(p + d) == d
    decreases |d|
  {
    var s := p + d;
    if d == [] {
      assert s == p;
    } else {
      var d' := d[..|d| - 1];
      assert s[..|s| - 1] == p + d';
      assert s[|s| - 1] == d[|d| - 1];
      assert IsDigit(s[|s| - 1]);
      DigitTailAfter(p, d');
      assert DigitTail(s) == DigitTail(p + d') + [d[|d| - 1]];
      assert d == d' + [d[|d| - 1]];
    }
  }
}
